/**
 * The course listing's filter and pagination state, shared by the admin
 * course-management page and the student course catalogue: tag toggles,
 * clearing, the query sent to `getAllCourses`, the previous/next buttons,
 * the five-button page window and the "Showing a to b of n" line.
 */
module CourseFilters {
  import opened Js
  import opened Text
  import CoursesApi

  /** The page's filter state; text inputs hold strings, `""` meaning unset. */
  datatype Filters = Filters(page: int, limit: int, search: string, category: string, tags: seq<string>,
                             status: string, minPrice: string, maxPrice: string)

  /** The state on first render: page 1 of 6 courses, no filter. */
  const Initial: Filters := Filters(1, 6, "", "", [], "", "", "")

  /** No filter is set. */
  predicate Unfiltered(f: Filters)
  {
    f.search == "" && f.category == "" && f.tags == [] && f.status == "" && f.minPrice == "" && f.maxPrice == ""
  }

  /** No value occurs twice. */
  predicate NoDup<T(==)>(xs: seq<T>)
  {
    forall i, j :: 0 <= i < j < |xs| ==> xs[i] != xs[j]
  }

  /** `xs.filter(t => t !== x)`. */
  function Remove(xs: seq<string>, x: string): (r: seq<string>)
    ensures x !in r
    ensures forall y :: y != x ==> (y in r <==> y in xs)
    ensures x !in xs ==> r == xs
    ensures |r| <= |xs|
  {
    if |xs| == 0 then []
    else if xs[0] == x then Remove(xs[1..], x)
    else [xs[0]] + Remove(xs[1..], x)
  }

  /** Removing from a concatenation removes from each part in place, so the kept values stay in order,
      repeats included. */
  lemma {:induction false} RemoveAppend(a: seq<string>, b: seq<string>, x: string)
    ensures Remove(a + b, x) == Remove(a, x) + Remove(b, x)
  {
    if |a| == 0 {
      assert a + b == b;
    } else {
      RemoveStep(a, b, x);
      RemoveAppend(a[1..], b, x);
      var head := if a[0] == x then [] else [a[0]];
      assert Remove(a + b, x) == head + (Remove(a[1..], x) + Remove(b, x));
      assert Remove(a, x) == head + Remove(a[1..], x);
    }
  }

  lemma RemoveStep(a: seq<string>, b: seq<string>, x: string)
    requires |a| > 0
    ensures var head := if a[0] == x then [] else [a[0]];
      Remove(a + b, x) == head + Remove(a[1..] + b, x) && Remove(a, x) == head + Remove(a[1..], x)
  {
    var ab := a + b;
    assert ab[0] == a[0] && ab[1..] == a[1..] + b;
  }

  /** A single value is kept exactly when it is not the one removed. */
  lemma RemoveOne(y: string, x: string)
    ensures Remove([y], x) == (if y == x then [] else [y])
  {
    assert [y][1..] == [];
  }

  /** Removing keeps distinct values distinct. */
  lemma {:induction false} RemoveNoDup(xs: seq<string>, x: string)
    requires NoDup(xs)
    ensures NoDup(Remove(xs, x))
  {
    if |xs| > 0 {
      RemoveNoDup(xs[1..], x);
      if xs[0] != x {
        var rest := Remove(xs[1..], x);
        assert xs[0] !in xs[1..];
        assert xs[0] !in rest;
        var r := [xs[0]] + rest;
        forall i, j | 0 <= i < j < |r| ensures r[i] != r[j] {
          if i == 0 {
            assert r[j] == rest[j - 1];
          } else {
            assert r[i] == rest[i - 1] && r[j] == rest[j - 1];
          }
        }
      }
    }
  }

  /** Tag toggle: remove the tag when selected, append it otherwise. */
  function ToggleTag(tags: seq<string>, tag: string): (r: seq<string>)
    ensures tag in r <==> tag !in tags
    ensures forall t :: t != tag ==> (t in r <==> t in tags)
    ensures tag !in tags ==> r == tags + [tag]
  {
    if tag in tags then Remove(tags, tag) else tags + [tag]
  }

  /** Toggling keeps a selection free of duplicates. */
  lemma ToggleKeepsNoDup(tags: seq<string>, tag: string)
    requires NoDup(tags)
    ensures NoDup(ToggleTag(tags, tag))
  {
    if tag in tags {
      RemoveNoDup(tags, tag);
    } else {
      var r := tags + [tag];
      forall i, j | 0 <= i < j < |r| ensures r[i] != r[j] {
        if j == |tags| {
          assert r[i] == tags[i];
        }
      }
    }
  }

  /** Toggling an unselected tag twice restores the selection exactly. */
  lemma ToggleTwiceRestores(tags: seq<string>, tag: string)
    requires tag !in tags
    ensures ToggleTag(ToggleTag(tags, tag), tag) == tags
  {
    RemoveAppended(tags, tag);
  }

  lemma {:induction false} RemoveAppended(xs: seq<string>, x: string)
    requires x !in xs
    ensures Remove(xs + [x], x) == xs
  {
    if |xs| > 0 {
      assert (xs + [x])[1..] == xs[1..] + [x];
      RemoveAppended(xs[1..], x);
    } else {
      assert xs + [x] == [x];
    }
  }

  /** The filter-bar tag chip: toggles the tag and returns to page 1; nothing else changes. */
  function ToggleTagFilter(f: Filters, tag: string): (r: Filters)
    ensures r.page == 1
    ensures tag in r.tags <==> tag !in f.tags
    ensures r == f.(tags := r.tags, page := 1)
  {
    f.(tags := ToggleTag(f.tags, tag), page := 1)
  }

  /** "Clear all": every filter unset and page 1; the page size is kept. */
  function ClearAllFilters(f: Filters): (r: Filters)
    ensures Unfiltered(r) && r.page == 1 && r.limit == f.limit
  {
    Filters(1, f.limit, "", "", [], "", "", "")
  }

  /** Clearing twice is clearing once, and clearing the initial state changes nothing. */
  lemma ClearIdempotent(f: Filters)
    ensures ClearAllFilters(ClearAllFilters(f)) == ClearAllFilters(f)
    ensures ClearAllFilters(Initial) == Initial
  {
  }

  /** `x || undefined` for a text input. */
  function Unless(s: string): (r: Option<string>)
    ensures r.None? <==> s == ""
    ensures r.Some? ==> r.value == s
  {
    if s == "" then None else Some(s)
  }

  /** The arguments the page passes to `getAllCourses`; the selected tags are joined with commas. */
  function Query(f: Filters): (q: CoursesApi.CourseQuery)
    ensures q.page == Some(f.page) && q.limit == Some(f.limit)
    ensures q.tags.None? <==> f.tags == []
    ensures |f.tags| == 1 ==> q.tags == Some(f.tags[0])
    ensures q.search.None? <==> f.search == ""
    ensures f.search != "" ==> q.search == Some(f.search)
    ensures f.category != "" ==> q.category == Some(f.category)
    ensures f.status != "" ==> q.status == Some(f.status)
    ensures f.minPrice != "" ==> q.minPrice == Some(f.minPrice)
    ensures f.maxPrice != "" ==> q.maxPrice == Some(f.maxPrice)
    ensures (q.category.None? <==> f.category == "") && (q.status.None? <==> f.status == "")
    ensures (q.minPrice.None? <==> f.minPrice == "") && (q.maxPrice.None? <==> f.maxPrice == "")
  {
    CoursesApi.CourseQuery(Some(f.page), Some(f.limit), Unless(f.search), Unless(f.category),
                           if |f.tags| > 0 then Some(Join(f.tags, ",")) else None,
                           Unless(f.status), Unless(f.minPrice), Unless(f.maxPrice))
  }

  /** The joined tags split back at the commas into the selection, in order, when no tag holds a comma. */
  lemma TagsRoundTrip(f: Filters)
    requires |f.tags| > 0 && forall i :: 0 <= i < |f.tags| ==> ',' !in f.tags[i]
    ensures Query(f).tags.Some? && Split(Query(f).tags.value, ',') == f.tags
  {
    SplitJoin(f.tags, ',');
  }

  /** The value the listing request carries for a filter box: its trimmed text, unless that is empty. */
  function Sent(box: string): Option<string>
  {
    if Trim(box) != "" then Some(Trim(box)) else None
  }

  /** What the page's filters become on the wire: each filter box's trimmed text under its own name, the
      selected tags as one comma-joined value, nothing for an empty box. */
  lemma QuerySendsFilters(f: Filters)
    ensures var ps := CoursesApi.QueryParams(Query(f))[2..];
      CoursesApi.Lookup(ps, CoursesApi.Search) == Sent(f.search)
      && CoursesApi.Lookup(ps, CoursesApi.Category) == Sent(f.category)
      && CoursesApi.Lookup(ps, CoursesApi.Status) == Sent(f.status)
      && CoursesApi.Lookup(ps, CoursesApi.MinPrice) == Sent(f.minPrice)
      && CoursesApi.Lookup(ps, CoursesApi.MaxPrice) == Sent(f.maxPrice)
      && CoursesApi.Lookup(ps, CoursesApi.TagList) == (if |f.tags| > 0 then Sent(Join(f.tags, ",")) else None)
  {
    var q := Query(f);
    assert q.search == Unless(f.search) && q.category == Unless(f.category) && q.status == Unless(f.status);
    assert q.minPrice == Unless(f.minPrice) && q.maxPrice == Unless(f.maxPrice);
    SendsFrom(f, q);
  }

  /** The same for any query built from the boxes as the page builds it. */
  lemma SendsFrom(f: Filters, q: CoursesApi.CourseQuery)
    requires q.search == Unless(f.search) && q.category == Unless(f.category) && q.status == Unless(f.status)
    requires q.minPrice == Unless(f.minPrice) && q.maxPrice == Unless(f.maxPrice)
    requires q.tags == if |f.tags| > 0 then Some(Join(f.tags, ",")) else None
    ensures var ps := CoursesApi.QueryParams(q)[2..];
      CoursesApi.Lookup(ps, CoursesApi.Search) == Sent(f.search)
      && CoursesApi.Lookup(ps, CoursesApi.Category) == Sent(f.category)
      && CoursesApi.Lookup(ps, CoursesApi.Status) == Sent(f.status)
      && CoursesApi.Lookup(ps, CoursesApi.MinPrice) == Sent(f.minPrice)
      && CoursesApi.Lookup(ps, CoursesApi.MaxPrice) == Sent(f.maxPrice)
      && CoursesApi.Lookup(ps, CoursesApi.TagList) == (if |f.tags| > 0 then Sent(Join(f.tags, ",")) else None)
  {
    var ps := CoursesApi.QueryParams(q)[2..];
    SentUnder(ps, CoursesApi.Search, q.search, f.search);
    SentUnder(ps, CoursesApi.Category, q.category, f.category);
    SentUnder(ps, CoursesApi.Status, q.status, f.status);
    SentUnder(ps, CoursesApi.MinPrice, q.minPrice, f.minPrice);
    SentUnder(ps, CoursesApi.MaxPrice, q.maxPrice, f.maxPrice);
  }

  /** A box whose query field the page filled from it arrives under its key as `Sent` says. */
  lemma SentUnder(ps: CoursesApi.Params, key: CoursesApi.Key, v: Option<string>, box: string)
    requires v == Unless(box) && CoursesApi.Lookup(ps, key) == CoursesApi.Effective(v)
    ensures CoursesApi.Lookup(ps, key) == Sent(box)
  {
    EffectiveUnless(box);
  }

  lemma EffectiveUnless(box: string)
    ensures CoursesApi.Effective(Unless(box)) == Sent(box)
  {
    if box == "" {
      assert Trim(box) == "";
    }
  }

  /** After "Clear all" the request carries only the first page and the page size. */
  lemma ClearedQuery(f: Filters)
    ensures CoursesApi.QueryParams(Query(ClearAllFilters(f))) ==
            [(CoursesApi.Page, "1"), (CoursesApi.Limit, IntToString(f.limit))]
  {
    CoursesApi.NoFiltersOnlyPaging(1, f.limit);
  }

  /** The listing's `meta` object, fields absent when the server omits them. */
  datatype Meta = Meta(total: Option<int>, totalPages: Option<int>)

  /** `meta.totalPages || 1`. */
  function TotalPages(m: Option<Meta>): (r: int)
    ensures r != 0
    ensures m.None? || m.value.totalPages.None? ==> r == 1
  {
    if m.Some? then OrNum(m.value.totalPages, 1) else 1
  }

  /** `meta.total || 0`. */
  function TotalCourses(m: Option<Meta>): (r: int)
    ensures m.None? || m.value.total.None? ==> r == 0
  {
    if m.Some? then OrNum(m.value.total, 0) else 0
  }

  /** The pagination bar is shown only with courses on screen and more than one page. */
  predicate PaginationShown(courseCount: nat, totalPages: int)
  {
    courseCount > 0 && totalPages > 1
  }

  /** The previous-page button: never below page 1. */
  function Prev(page: int): (r: int)
    ensures r >= 1
    ensures page > 1 ==> r == page - 1
  {
    if page - 1 > 1 then page - 1 else 1
  }

  /** The next-page button: never above the last page. */
  function Next(page: int, totalPages: int): (r: int)
    ensures r <= totalPages
    ensures page < totalPages ==> r == page + 1
  {
    if page + 1 < totalPages then page + 1 else totalPages
  }

  /** From any page in range the two buttons stay in range, and the disabled ends are fixed points. */
  lemma PagingStaysInRange(page: int, totalPages: int)
    requires 1 <= page <= totalPages
    ensures 1 <= Prev(page) <= totalPages && 1 <= Next(page, totalPages) <= totalPages
    ensures Prev(1) == 1 && Next(totalPages, totalPages) == totalPages
    ensures page < totalPages ==> Prev(Next(page, totalPages)) == page
    ensures page > 1 ==> Next(Prev(page), totalPages) == page
  {
  }

  /** The first numbered button: pages 1-5 near the start, the last five near the end, else centred on the page. */
  function WindowStart(page: int, totalPages: int): int
  {
    if totalPages <= 5 then 1
    else if page <= 3 then 1
    else if page >= totalPages - 2 then totalPages - 4
    else page - 2
  }

  /** The numbered page buttons. */
  function Window(page: int, totalPages: int): (w: seq<int>)
    ensures |w| == if totalPages <= 0 then 0 else if totalPages < 5 then totalPages else 5
    ensures forall i :: 0 <= i < |w| ==> 1 <= w[i] <= totalPages
    ensures forall i :: 0 < i < |w| ==> w[i] == w[i - 1] + 1
    ensures 1 <= page <= totalPages ==> page in w
  {
    var n := if totalPages <= 0 then 0 else if totalPages < 5 then totalPages else 5;
    var start := WindowStart(page, totalPages);
    var w := seq(n, i requires 0 <= i < n => start + i);
    if 1 <= page <= totalPages then
      assert w[page - start] == page;
      w
    else w
  }

  /** The window has no repeated page, so each button's `key` is unique. */
  lemma WindowDistinct(page: int, totalPages: int)
    ensures NoDup(Window(page, totalPages))
  {
    var w := Window(page, totalPages);
    forall i, j | 0 <= i < j < |w| ensures w[i] != w[j] {
      assert w[j] == w[0] + j && w[i] == w[0] + i by {
        var start := WindowStart(page, totalPages);
        assert forall k :: 0 <= k < |w| ==> w[k] == start + k;
      }
    }
  }

  /** "Showing `from` to `to` of `total`". */
  function ShowingRange(page: int, limit: int, total: int): (r: (int, int))
  {
    ((page - 1) * limit + 1, if page * limit < total then page * limit else total)
  }

  /** On a page that holds courses the range is non-empty, within the total, and at most one page long;
      on the last page it ends at the total. */
  lemma ShowingRangeBounds(page: int, limit: int, total: int)
    requires page >= 1 && limit >= 1 && (page - 1) * limit < total
    ensures var (from, to) := ShowingRange(page, limit, total);
      1 <= from <= to <= total && to - from + 1 <= limit
    ensures total <= page * limit ==> ShowingRange(page, limit, total).1 == total
  {
    assert (page - 1) * limit >= 0;
    assert page * limit == (page - 1) * limit + limit;
  }
}
