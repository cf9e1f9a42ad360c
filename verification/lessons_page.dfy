/**
 * The lessons listing page: its previous/next paging against the
 * response's `meta.totalPages`, and the duration shown on each card.
 */
module LessonsPage {
  import opened Js
  import Http
  import LessonApi

  /** The page size the listing requests. */
  const Limit := 6

  /** `useGetLessonsQuery({ page: currentPage, limit })`: the listing request for the current page; the
      server reads back that page and the page size `Limit`. */
  function ListingRequest(page: int): (r: Http.Request)
    ensures r.verb == Http.GET
    ensures LessonApi.Decode(r).Some? && LessonApi.Decode(r).value.Listing?
    ensures LessonApi.Paging(LessonApi.Decode(r).value.query) == Some((page, Limit))
  {
    LessonApi.GetLessons(Some(page), Some(Limit))
  }

  /** `lessonsResponse?.meta`: absent, or present with a possibly absent `totalPages`. */
  datatype Meta = NoMeta | Meta(totalPages: Option<int>)

  /** `meta.totalPages` after the `|| { totalPages: 1 }` fallback; `None` is `undefined`. */
  function TotalPages(m: Meta): (tp: Option<int>)
    ensures m.NoMeta? ==> tp == Some(1)
    ensures m.Meta? ==> tp == m.totalPages
  {
    match m
    case NoMeta => Some(1)
    case Meta(tp) => tp
  }

  /** The previous button: moves back only from a page after the first. */
  function Prev(page: int): (r: int)
    ensures page > 1 ==> r == page - 1
    ensures page <= 1 ==> r == page
  {
    if page > 1 then page - 1 else page
  }

  /** The next button: moves on only while the page is before `totalPages`; an undefined total never advances. */
  function Next(page: int, totalPages: Option<int>): (r: int)
    ensures totalPages.Some? && page < totalPages.value ==> r == page + 1
    ensures totalPages.None? || page >= totalPages.value ==> r == page
  {
    if totalPages.Some? && page < totalPages.value then page + 1 else page
  }

  datatype Click = PrevClick | NextClick

  /** The page after a sequence of clicks, starting from `page`. */
  function Clicks(page: int, cs: seq<Click>, totalPages: Option<int>): int
    decreases |cs|
  {
    if |cs| == 0 then page
    else Clicks(if cs[0] == PrevClick then Prev(page) else Next(page, totalPages), cs[1..], totalPages)
  }

  /** The greatest page reachable: the total when it is defined and at least 1, else 1. */
  function MaxPage(totalPages: Option<int>): (m: int)
    ensures m >= 1
  {
    if totalPages.Some? && totalPages.value > 1 then totalPages.value else 1
  }

  /** Starting from page 1, no sequence of clicks leaves `[1, max(1, totalPages)]`. */
  lemma {:induction false} ClicksStayInRange(page: int, cs: seq<Click>, totalPages: Option<int>)
    requires 1 <= page <= MaxPage(totalPages)
    ensures 1 <= Clicks(page, cs, totalPages) <= MaxPage(totalPages)
    decreases |cs|
  {
    if |cs| > 0 {
      var next := if cs[0] == PrevClick then Prev(page) else Next(page, totalPages);
      ClicksStayInRange(next, cs[1..], totalPages);
    }
  }

  /** With a missing `meta` the listing is a single page and neither button moves. */
  lemma SinglePageWithoutMeta(cs: seq<Click>)
    ensures Clicks(1, cs, TotalPages(NoMeta)) == 1
  {
    ClicksStayInRange(1, cs, TotalPages(NoMeta));
  }

  /** `Math.floor(d / 60)`. */
  function Minutes(d: int): int
  {
    d / 60
  }

  /** `d % 60`, which in JavaScript takes the sign of `d`. */
  function Seconds(d: int): (s: int)
    ensures d >= 0 ==> 0 <= s < 60
    ensures d < 0 ==> -60 < s <= 0
  {
    if d >= 0 then d % 60 else -((-d) % 60)
  }

  /** For a non-negative duration the display splits it exactly into whole minutes and under-a-minute seconds. */
  lemma DurationSplit(d: int)
    requires d >= 0
    ensures 60 * Minutes(d) + Seconds(d) == d
    ensures 0 <= Seconds(d) < 60 && Minutes(d) >= 0
  {
  }

  /** For a negative duration the two parts use different roundings, so they no longer add up: -61 s shows as -2m -1s. */
  lemma NegativeDurationExample()
    ensures Minutes(-61) == -2 && Seconds(-61) == -1 && 60 * Minutes(-61) + Seconds(-61) != -61
  {
  }
}
