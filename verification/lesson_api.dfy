/**
 * The lesson endpoints: the paged listing, fetching one lesson, and the
 * create and update mutations with their cache tags.
 */
module LessonApi {
  import opened Js
  import opened Text
  import opened Http

  const LessonsType := "Lessons"
  const LessonList: Tag := ListTag(LessonsType)

  function LessonTag(id: string): Tag
  {
    IdTag(LessonsType, Some(id))
  }

  /** The lesson routes of the server. */
  datatype Route = Listing(query: string) | ById(lessonId: string) | Create(payload: Json) | Update(lessonId: string, body: Json)

  const ListingPrefix := "/lessons?"
  const ItemPrefix := "/lessons/"

  /** The route a request reaches, told apart by verb, path and body; the Authorization header plays no part. */
  function Decode(r: Request): Option<Route>
  {
    match r.verb
    case GET =>
      if r.body.Some? then None
      else if AfterPrefix(ListingPrefix, r.url).Some? then Some(Listing(AfterPrefix(ListingPrefix, r.url).value))
      else if AfterPrefix(ItemPrefix, r.url).Some? then Some(ById(AfterPrefix(ItemPrefix, r.url).value))
      else None
    case POST =>
      if r.url == "/lessons" && r.body.Some? then Some(Create(r.body.value)) else None
    case PUT =>
      if AfterPrefix(ItemPrefix, r.url).Some? && r.body.Some? then Some(Update(AfterPrefix(ItemPrefix, r.url).value, r.body.value))
      else None
    case _ => None
  }

  /** The server's reading of a listing query: exactly `page` then `limit`, as integers. */
  function Paging(query: string): Option<(int, int)>
  {
    var ps := ParseQuery(query);
    if |ps| == 2 && ps[0].0 == "page" && ps[1].0 == "limit" then Some((ParseInt(ps[0].1), ParseInt(ps[1].1))) else None
  }

  /** `getLessons({ page = 1, limit = 6 } = {})`: the page and size interpolated into the path; the server
      reads back exactly the page and size asked for, 1 and 6 when omitted. */
  function GetLessons(page: Option<int>, limit: Option<int>): (r: Request)
    ensures r.verb == GET
    ensures r.url == "/lessons?page=" + IntToString(Coalesce(page, 1)) + "&limit=" + IntToString(Coalesce(limit, 6))
    ensures Decode(r).Some? && Decode(r).value.Listing?
    ensures Paging(Decode(r).value.query) == Some((Coalesce(page, 1), Coalesce(limit, 6)))
  {
    ListingOf(Coalesce(page, 1), Coalesce(limit, 6));
    Plain("/lessons?page=" + IntToString(Coalesce(page, 1)) + "&limit=" + IntToString(Coalesce(limit, 6)), GET)
  }

  /** The listing path for a page and size: the query after the prefix, and its reading by the server. */
  lemma ListingOf(pn: int, ln: int)
    ensures var q := "page=" + IntToString(pn) + "&limit=" + IntToString(ln);
      AfterPrefix(ListingPrefix, "/lessons?page=" + IntToString(pn) + "&limit=" + IntToString(ln)) == Some(q)
      && Paging(q) == Some((pn, ln))
  {
    var p := IntToString(pn);
    var l := IntToString(ln);
    QueryShape(p, l);
    AfterPrefixOf(ListingPrefix, "page=" + p + "&limit=" + l);
    IntToStringChars(pn, '&');
    IntToStringChars(pn, '=');
    IntToStringChars(ln, '&');
    IntToStringChars(ln, '=');
    ParseFormatQuery([("page", p), ("limit", l)]);
    ParseIntToString(pn);
    ParseIntToString(ln);
  }

  lemma QueryShape(p: string, l: string)
    ensures FormatQuery([("page", p), ("limit", l)]) == "page=" + p + "&limit=" + l
    ensures "/lessons?page=" + p + "&limit=" + l == ListingPrefix + ("page=" + p + "&limit=" + l)
  {
    var pairs := [("page", p), ("limit", l)];
    assert pairs[1..] == [("limit", l)];
  }

  function GetLessonsTags(): seq<Tag>
  {
    [LessonList]
  }

  /** `getLessonById(lessonId)`. */
  function GetLessonById(lessonId: string): (r: Request)
    ensures r.verb == GET && r.url == "/lessons/" + lessonId
    ensures Decode(r) == Some(ById(lessonId))
  {
    AfterPrefixOf(ItemPrefix, lessonId);
    assert (ItemPrefix + lessonId)[8] == '/';
    Plain("/lessons/" + lessonId, GET)
  }

  function GetLessonByIdTags(lessonId: string): seq<Tag>
  {
    [LessonTag(lessonId)]
  }

  /** `createLesson(payload)`. */
  function CreateLesson(payload: Json): (r: Request)
    ensures r.verb == POST && r.url == "/lessons" && r.body == Some(payload)
    ensures Decode(r) == Some(Create(payload))
  {
    WithBody("/lessons", POST, payload)
  }

  function CreateLessonTags(): seq<Tag>
  {
    [LessonList]
  }

  /** `updateLesson({ lessonId, body })`. */
  function UpdateLesson(lessonId: string, body: Json): (r: Request)
    ensures r.verb == PUT && r.url == "/lessons/" + lessonId && r.body == Some(body)
    ensures Decode(r) == Some(Update(lessonId, body))
  {
    AfterPrefixOf(ItemPrefix, lessonId);
    WithBody("/lessons/" + lessonId, PUT, body)
  }

  function UpdateLessonTags(lessonId: string): seq<Tag>
  {
    [LessonTag(lessonId), LessonList]
  }

  /** The request the application sends for a route; a listing query is sent as given. */
  function Encode(route: Route): Request
  {
    match route
    case Listing(q) => Plain(ListingPrefix + q, GET)
    case ById(id) => GetLessonById(id)
    case Create(p) => CreateLesson(p)
    case Update(id, body) => UpdateLesson(id, body)
  }

  /** Every request the server routes is, header aside, the one the application builds for that route. */
  lemma DecodeExact(r: Request)
    ensures Decode(r).Some? ==> Encode(Decode(r).value) == r.(authorization := None)
  {
  }

  /** An update refetches the listing, and that lesson unless its id is empty (no provider is filed under
      an empty id), and no other lesson; a create refetches the listing only. */
  lemma LessonInvalidation(lessonId: string, other: string)
    requires other != ListId
    ensures Refetches(UpdateLessonTags(lessonId), GetLessonsTags())
    ensures Refetches(UpdateLessonTags(lessonId), GetLessonByIdTags(lessonId)) <==> lessonId != ""
    ensures other != "" ==> (Refetches(UpdateLessonTags(lessonId), GetLessonByIdTags(other)) <==> other == lessonId)
    ensures Refetches(CreateLessonTags(), GetLessonsTags())
    ensures !Refetches(CreateLessonTags(), GetLessonByIdTags(other))
  {
    assert Hits(UpdateLessonTags(lessonId)[1], GetLessonsTags()[0]);
    if lessonId != "" {
      assert Hits(UpdateLessonTags(lessonId)[0], GetLessonByIdTags(lessonId)[0]);
    }
    assert Hits(CreateLessonTags()[0], GetLessonsTags()[0]);
  }
}
