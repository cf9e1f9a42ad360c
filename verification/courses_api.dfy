/**
 * The course endpoints: the query-string builder of `getAllCourses`, the
 * enrollment, lesson and assignment requests, and the admin course
 * mutations with their cache tags. `URLSearchParams` percent-encoding is
 * the `encode` parameter of `Serialize`.
 */
module CoursesApi {
  import opened Js
  import opened Text
  import opened Http

  /**
   * The arguments of `getAllCourses`. For the text filters `None` is an
   * omitted or `null` value (both are dropped, like an empty one); for
   * `page` and `limit` it is an omitted value, which the destructuring
   * default turns into 0.
   */
  datatype CourseQuery = CourseQuery(page: Option<int>, limit: Option<int>, search: Option<string>, category: Option<string>,
                                     tags: Option<string>, status: Option<string>, minPrice: Option<string>, maxPrice: Option<string>)

  /** The parameter names `getAllCourses` can append, in the order it appends them. */
  datatype Key = Page | Limit | Search | Category | TagList | Status | MinPrice | MaxPrice

  /** The name written into the query string. */
  function KeyName(k: Key): string
  {
    match k
    case Page => "page"
    case Limit => "limit"
    case Search => "search"
    case Category => "category"
    case TagList => "tags"
    case Status => "status"
    case MinPrice => "minPrice"
    case MaxPrice => "maxPrice"
  }

  /** Distinct keys are written under distinct names. */
  lemma KeyNameInjective(a: Key, b: Key)
    ensures KeyName(a) == KeyName(b) <==> a == b
  {
  }

  /** Position in the append order. */
  function Rank(k: Key): int
  {
    match k
    case Page => 0
    case Limit => 1
    case Search => 2
    case Category => 3
    case TagList => 4
    case Status => 5
    case MinPrice => 6
    case MaxPrice => 7
  }

  type Params = seq<(Key, string)>

  /** The value a filter contributes: its trimmed text, when that is non-empty. */
  function Effective(v: Option<string>): Option<string>
  {
    if v.Some? && Trim(v.value) != "" then Some(Trim(v.value)) else None
  }

  /** `params.get(key)`: the first value appended under `key`. */
  function Lookup(ps: Params, key: Key): (r: Option<string>)
    ensures r.None? <==> forall i :: 0 <= i < |ps| ==> ps[i].0 != key
  {
    if |ps| == 0 then None else if ps[0].0 == key then Some(ps[0].1) else Lookup(ps[1..], key)
  }

  /** The optional filters as (key, effective value) pairs, in the order they are considered. */
  function Entries(q: CourseQuery): seq<(Key, Option<string>)>
  {
    [(Search, Effective(q.search)), (Category, Effective(q.category)), (TagList, Effective(q.tags)),
     (Status, Effective(q.status)), (MinPrice, Effective(q.minPrice)), (MaxPrice, Effective(q.maxPrice))]
  }

  /** The argument an entry list holds under `name` (the first one). */
  function ArgumentOf(es: seq<(Key, Option<string>)>, name: Key): Option<string>
  {
    if |es| == 0 then None else if es[0].0 == name then es[0].1 else ArgumentOf(es[1..], name)
  }

  /** The first entry under a key decides its argument. */
  lemma {:induction false} ArgumentAt(es: seq<(Key, Option<string>)>, i: nat, k: Key)
    requires i < |es| && es[i].0 == k
    requires forall j :: 0 <= j < i ==> es[j].0 != k
    ensures ArgumentOf(es, k) == es[i].1
  {
    if i > 0 {
      ArgumentAt(es[1..], i - 1, k);
    }
  }

  /** Appends, in order, every entry whose value is present. */
  function Keep(es: seq<(Key, Option<string>)>): (ps: Params)
    ensures |ps| <= |es|
  {
    if |es| == 0 then []
    else
      var rest := Keep(es[1..]);
      if es[0].1.Some? then [(es[0].0, es[0].1.value)] + rest else rest
  }

  /** Keys strictly increasing in rank. */
  predicate Ranked<V>(ps: seq<(Key, V)>)
  {
    forall i, j :: 0 <= i < j < |ps| ==> Rank(ps[i].0) < Rank(ps[j].0)
  }

  /** Every key ranks above `lo`. */
  predicate Above<V>(ps: seq<(Key, V)>, lo: int)
  {
    forall i :: 0 <= i < |ps| ==> Rank(ps[i].0) > lo
  }

  /** Keeping a sub-list preserves the order of the keys and their lower bound. */
  lemma {:induction false} KeepRanked(es: seq<(Key, Option<string>)>, lo: int)
    requires Ranked(es) && Above(es, lo)
    ensures Ranked(Keep(es)) && Above(Keep(es), lo)
  {
    if |es| > 0 {
      var tail := es[1..];
      assert Ranked(tail) && Above(tail, Rank(es[0].0)) by {
        forall i | 0 <= i < |tail| ensures Rank(tail[i].0) > Rank(es[0].0) {
          assert tail[i] == es[i + 1];
        }
      }
      KeepRanked(tail, Rank(es[0].0));
      var rest := Keep(tail);
      if es[0].1.Some? {
        var ps := Keep(es);
        assert ps == [(es[0].0, es[0].1.value)] + rest;
        forall i, j | 0 <= i < j < |ps| ensures Rank(ps[i].0) < Rank(ps[j].0) {
          assert ps[j] == rest[j - 1];
          if i > 0 {
            assert ps[i] == rest[i - 1];
          }
        }
      }
    }
  }

  /** Looking a key up in the kept list yields the value the entries hold for it, when keys are distinct. */
  lemma {:induction false} KeepLookup(es: seq<(Key, Option<string>)>, name: Key)
    requires Ranked(es)
    ensures Lookup(Keep(es), name) == ArgumentOf(es, name)
  {
    if |es| > 0 {
      var tail := es[1..];
      assert Ranked(tail) && Above(tail, Rank(es[0].0)) by {
        forall i | 0 <= i < |tail| ensures Rank(tail[i].0) > Rank(es[0].0) {
          assert tail[i] == es[i + 1];
        }
      }
      KeepLookup(tail, name);
      if es[0].0 == name && es[0].1.None? {
        KeepRanked(tail, Rank(name));
      }
    }
  }

  /** In a ranked list the kept value under each listed key is the one the list holds there. */
  lemma KeepLookupAt(es: seq<(Key, Option<string>)>, i: nat)
    requires Ranked(es) && i < |es|
    ensures Lookup(Keep(es), es[i].0) == es[i].1
  {
    ArgumentAt(es, i, es[i].0);
    KeepLookup(es, es[i].0);
  }

  /** The optional filters, appended in their fixed order. */
  function OptionalParams(q: CourseQuery): (r: Params)
    ensures Ranked(r) && Above(r, 1) && forall i :: 0 <= i < |r| ==> Rank(r[i].0) < 8
    ensures Lookup(r, Search) == Effective(q.search)
    ensures Lookup(r, Category) == Effective(q.category)
    ensures Lookup(r, TagList) == Effective(q.tags)
    ensures Lookup(r, Status) == Effective(q.status)
    ensures Lookup(r, MinPrice) == Effective(q.minPrice)
    ensures Lookup(r, MaxPrice) == Effective(q.maxPrice)
  {
    var es := Entries(q);
    KeepRanked(es, 1);
    KeepLookupAt(es, 0);
    KeepLookupAt(es, 1);
    KeepLookupAt(es, 2);
    KeepLookupAt(es, 3);
    KeepLookupAt(es, 4);
    KeepLookupAt(es, 5);
    Keep(es)
  }

  /** The full parameter list: `page` and `limit` first, always, then the optional filters. */
  function QueryParams(q: CourseQuery): (ps: Params)
    ensures |ps| >= 2 && |ps| <= 8
    ensures ps[0] == (Page, IntToString(Coalesce(q.page, 0)))
    ensures ps[1] == (Limit, IntToString(Coalesce(q.limit, 0)))
    ensures Ranked(ps[2..]) && forall i :: 2 <= i < |ps| ==> 2 <= Rank(ps[i].0) < 8
    ensures Lookup(ps[2..], Search) == Effective(q.search) && Lookup(ps[2..], Category) == Effective(q.category)
    ensures Lookup(ps[2..], TagList) == Effective(q.tags) && Lookup(ps[2..], Status) == Effective(q.status)
    ensures Lookup(ps[2..], MinPrice) == Effective(q.minPrice) && Lookup(ps[2..], MaxPrice) == Effective(q.maxPrice)
  {
    var opt := OptionalParams(q);
    var ps := [(Page, IntToString(Coalesce(q.page, 0))), (Limit, IntToString(Coalesce(q.limit, 0)))] + opt;
    assert ps[2..] == opt;
    ps
  }

  /** `params.toString()`: `key=value` pairs joined by `&`, each side passed through `encode`. */
  function Serialize(ps: Params, encode: string -> string): string
  {
    if |ps| == 0 then ""
    else if |ps| == 1 then encode(KeyName(ps[0].0)) + "=" + encode(ps[0].1)
    else encode(KeyName(ps[0].0)) + "=" + encode(ps[0].1) + "&" + Serialize(ps[1..], encode)
  }

  /** The course routes of the server. */
  datatype Route =
    | Listing(query: string)
    | Enrollments
    | CourseLessons(courseId: string)
    | Progress(courseId: string, body: Json)
    | Assignment(courseId: string, body: Json)
    | NewCourse(form: Json)
    | EditCourse(courseId: string, body: Json)
    | RemoveCourse(courseId: string)

  const ListingPrefix := "/courses?"
  const LessonsPrefix := "/lessons/course/"
  const AdminCourses := "/admin/courses"
  const AdminPrefix := "/admin/courses/"

  /** The route a request reaches, told apart by verb, path and body; the Authorization header plays no part. */
  function Decode(r: Request): Option<Route>
  {
    match r.verb
    case GET =>
      if r.body.Some? then None
      else if AfterPrefix(ListingPrefix, r.url).Some? then Some(Listing(AfterPrefix(ListingPrefix, r.url).value))
      else if r.url == "/enrollments/mine" then Some(Enrollments)
      else if AfterPrefix(LessonsPrefix, r.url).Some? then Some(CourseLessons(AfterPrefix(LessonsPrefix, r.url).value))
      else None
    case PATCH =>
      if Between("/enrollments/", "/progress", r.url).Some? && r.body.Some? then
        Some(Progress(Between("/enrollments/", "/progress", r.url).value, r.body.value))
      else None
    case POST =>
      if r.body.None? then None
      else if r.url == AdminCourses then Some(NewCourse(r.body.value))
      else if Between("/courses/", "/assignments", r.url).Some? then
        Some(Assignment(Between("/courses/", "/assignments", r.url).value, r.body.value))
      else None
    case PUT =>
      if AfterPrefix(AdminPrefix, r.url).Some? && r.body.Some? then Some(EditCourse(AfterPrefix(AdminPrefix, r.url).value, r.body.value))
      else None
    case DELETE =>
      if r.body.None? && AfterPrefix(AdminPrefix, r.url).Some? then Some(RemoveCourse(AfterPrefix(AdminPrefix, r.url).value))
      else None
  }

  /** `getAllCourses.query(args)`: a GET of the listing route whose query is the serialised parameters. */
  function GetAllCourses(q: CourseQuery, encode: string -> string): (r: Request)
    ensures r.verb == GET && r.body.None? && r.authorization.None?
    ensures r.url == "/courses?" + Serialize(QueryParams(q), encode)
    ensures Decode(r) == Some(Listing(Serialize(QueryParams(q), encode)))
  {
    AfterPrefixOf(ListingPrefix, Serialize(QueryParams(q), encode));
    Plain("/courses?" + Serialize(QueryParams(q), encode), GET)
  }

  /** The parameters as written into the query string: name and value each passed through `encode`. */
  function EncodeParams(ps: Params, encode: string -> string): (r: seq<(string, string)>)
    ensures |r| == |ps|
    ensures forall i :: 0 <= i < |ps| ==> r[i] == (encode(KeyName(ps[i].0)), encode(ps[i].1))
  {
    if |ps| == 0 then [] else [(encode(KeyName(ps[0].0)), encode(ps[0].1))] + EncodeParams(ps[1..], encode)
  }

  lemma {:induction false} SerializeIsFormat(ps: Params, encode: string -> string)
    ensures Serialize(ps, encode) == FormatQuery(EncodeParams(ps, encode))
  {
    if |ps| > 1 {
      SerializeIsFormat(ps[1..], encode);
      assert EncodeParams(ps, encode)[1..] == EncodeParams(ps[1..], encode);
    }
  }

  /**
   * The listing round trip: when the encoder never leaves a `&` or `=` in its
   * output (percent-encoding escapes both), the server reads back every
   * parameter `getAllCourses` appended, encoded, in the order appended.
   */
  lemma ListingRoundTrip(q: CourseQuery, encode: string -> string)
    requires forall s :: QueryToken(encode(s))
    ensures Decode(GetAllCourses(q, encode)).Some? && Decode(GetAllCourses(q, encode)).value.Listing?
    ensures ParseQuery(Decode(GetAllCourses(q, encode)).value.query) == EncodeParams(QueryParams(q), encode)
  {
    var ps := QueryParams(q);
    SerializeIsFormat(ps, encode);
    ParseFormatQuery(EncodeParams(ps, encode));
  }

  /** Without filters only `page` and `limit` are sent. */
  lemma NoFiltersOnlyPaging(page: int, limit: int)
    ensures QueryParams(CourseQuery(Some(page), Some(limit), None, None, None, None, None, None)) ==
            [(Page, IntToString(page)), (Limit, IntToString(limit))]
  {
  }

  /** A filter of white space only is dropped; surrounding white space of a kept filter is trimmed away. */
  lemma BlankFilterDropped(q: CourseQuery, text: string)
    requires forall i :: 0 <= i < |text| ==> IsSpace(text[i])
    ensures Lookup(QueryParams(q.(search := Some(text)))[2..], Search).None?
  {
    TrimSpec(text);
  }

  const CoursesTag: Tag := TypeTag("Courses")
  const UserTag: Tag := TypeTag("User")
  const MaterialsTag: Tag := TypeTag("Materials")

  /** `getEnrollments`: the student's own enrollments. */
  function GetEnrollments(): (r: Request)
    ensures r.verb == GET && r.url == "/enrollments/mine" && r.body.None? && r.authorization.None?
    ensures Decode(r) == Some(Enrollments)
  {
    assert "/enrollments/mine"[1] != ListingPrefix[1];
    Plain("/enrollments/mine", GET)
  }

  /** `getCourseLessons(courseId)`. */
  function GetCourseLessons(courseId: string): (r: Request)
    ensures r.verb == GET && r.url == "/lessons/course/" + courseId
    ensures Decode(r) == Some(CourseLessons(courseId))
  {
    AfterPrefixOf(LessonsPrefix, courseId);
    assert (LessonsPrefix + courseId)[1] == 'l';
    Plain("/lessons/course/" + courseId, GET)
  }

  /** `updateEnrollmentProgress({courseId, body})`: PATCH with the body passed through unchanged. */
  function UpdateEnrollmentProgress(courseId: string, body: Json): (r: Request)
    ensures r.verb == PATCH && r.url == "/enrollments/" + courseId + "/progress" && r.body == Some(body)
    ensures Decode(r) == Some(Progress(courseId, body))
  {
    BetweenOf("/enrollments/", courseId, "/progress");
    WithBody("/enrollments/" + courseId + "/progress", PATCH, body)
  }

  /** `createAssignment({courseId, body})`. */
  function CreateAssignment(courseId: string, body: Json): (r: Request)
    ensures r.verb == POST && r.url == "/courses/" + courseId + "/assignments" && r.body == Some(body)
    ensures Decode(r) == Some(Assignment(courseId, body))
  {
    BetweenOf("/courses/", courseId, "/assignments");
    assert ("/courses/" + courseId + "/assignments")[1] == 'c';
    WithBody("/courses/" + courseId + "/assignments", POST, body)
  }

  /** `createCourse(formData)`: the multipart form is an opaque body here. */
  function CreateCourse(form: Json): (r: Request)
    ensures r.verb == POST && r.url == "/admin/courses" && r.body == Some(form)
    ensures Decode(r) == Some(NewCourse(form))
  {
    WithBody("/admin/courses", POST, form)
  }

  /** `updateCourse({courseId, body})`. */
  function UpdateCourse(courseId: string, body: Json): (r: Request)
    ensures r.verb == PUT && r.url == "/admin/courses/" + courseId && r.body == Some(body)
    ensures Decode(r) == Some(EditCourse(courseId, body))
  {
    AfterPrefixOf(AdminPrefix, courseId);
    WithBody("/admin/courses/" + courseId, PUT, body)
  }

  /** `deleteCourse(courseId)`. */
  function DeleteCourse(courseId: string): (r: Request)
    ensures r.verb == DELETE && r.url == "/admin/courses/" + courseId && r.body.None?
    ensures Decode(r) == Some(RemoveCourse(courseId))
  {
    AfterPrefixOf(AdminPrefix, courseId);
    Plain("/admin/courses/" + courseId, DELETE)
  }

  /** The request the application sends for a route; a listing query is sent as given. */
  function Encode(route: Route): Request
  {
    match route
    case Listing(query) => Plain(ListingPrefix + query, GET)
    case Enrollments => GetEnrollments()
    case CourseLessons(id) => GetCourseLessons(id)
    case Progress(id, body) => UpdateEnrollmentProgress(id, body)
    case Assignment(id, body) => CreateAssignment(id, body)
    case NewCourse(form) => CreateCourse(form)
    case EditCourse(id, body) => UpdateCourse(id, body)
    case RemoveCourse(id) => DeleteCourse(id)
  }

  /** Every request the server routes is, header aside, the one the application builds for that route. */
  lemma DecodeExact(r: Request)
    ensures Decode(r).Some? ==> Encode(Decode(r).value) == r.(authorization := None)
  {
  }

  /** Cache tags: the queries provide them, the mutations invalidate them. */
  datatype Endpoint = GetEnrollmentsE | GetCourseLessonsE | UpdateEnrollmentProgressE | CreateAssignmentE
                    | GetAllCoursesE | CreateCourseE | UpdateCourseE | DeleteCourseE

  /** The tags an endpoint provides (queries) or invalidates (mutations). */
  function Tags(e: Endpoint): seq<Tag>
  {
    match e
    case GetEnrollmentsE => [UserTag]
    case GetCourseLessonsE => [MaterialsTag]
    case UpdateEnrollmentProgressE => [UserTag, MaterialsTag]
    case CreateAssignmentE => [MaterialsTag, UserTag]
    case GetAllCoursesE => [CoursesTag]
    case CreateCourseE => [CoursesTag]
    case UpdateCourseE => [CoursesTag]
    case DeleteCourseE => [CoursesTag]
  }

  predicate IsMutation(e: Endpoint)
  {
    e.UpdateEnrollmentProgressE? || e.CreateAssignmentE? || e.CreateCourseE? || e.UpdateCourseE? || e.DeleteCourseE?
  }

  /**
   * The admin course mutations refetch the course listing and nothing a
   * student page reads; progress updates and assignments refetch the
   * student's enrollments and course lessons but never the listing.
   */
  lemma CourseInvalidation(e: Endpoint)
    requires IsMutation(e)
    ensures Refetches(Tags(e), Tags(GetAllCoursesE)) <==> (e.CreateCourseE? || e.UpdateCourseE? || e.DeleteCourseE?)
    ensures Refetches(Tags(e), Tags(GetEnrollmentsE)) <==> (e.UpdateEnrollmentProgressE? || e.CreateAssignmentE?)
    ensures Refetches(Tags(e), Tags(GetCourseLessonsE)) <==> (e.UpdateEnrollmentProgressE? || e.CreateAssignmentE?)
  {
    if e.UpdateEnrollmentProgressE? {
      assert Hits(Tags(e)[0], Tags(GetEnrollmentsE)[0]);
      assert Hits(Tags(e)[1], Tags(GetCourseLessonsE)[0]);
    } else if e.CreateAssignmentE? {
      assert Hits(Tags(e)[1], Tags(GetEnrollmentsE)[0]);
      assert Hits(Tags(e)[0], Tags(GetCourseLessonsE)[0]);
    } else if e.CreateCourseE? || e.UpdateCourseE? || e.DeleteCourseE? {
      assert Hits(Tags(e)[0], Tags(GetAllCoursesE)[0]);
    }
  }
}
