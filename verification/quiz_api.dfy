/**
 * The quiz endpoints: requests and cache tags of listing, fetching,
 * creating, updating, deleting and submitting quizzes.
 */
module QuizApi {
  import opened Js
  import opened Text
  import opened Http

  const QuizzesType := "Quizzes"

  /** The collection tag every quiz list provides. */
  const QuizList: Tag := ListTag(QuizzesType)

  /** The tag of one quiz. */
  function QuizTag(id: Option<string>): Tag
  {
    IdTag(QuizzesType, id)
  }

  /** A quiz in a list response: `_id` and `id`, each possibly absent. */
  datatype QuizItem = QuizItem(underscoreId: Option<string>, id: Option<string>)

  /** The quiz routes of the server. */
  datatype Route =
    | List
    | ById(quizId: string)
    | Create(payload: Json)
    | Update(quizId: string, patch: seq<(string, Json)>)
    | Delete(quizId: string)
    | Submit(quizId: string, answers: Json)

  const Collection := "/quizzes"
  const ItemPrefix := "/quizzes/"
  const SubmitSuffix := "/submit"

  /** The route a request reaches, told apart by verb, path and body; the Authorization header plays no part. */
  function Decode(r: Request): Option<Route>
  {
    match r.verb
    case GET =>
      if r.body.Some? then None
      else if r.url == Collection then Some(List)
      else if AfterPrefix(ItemPrefix, r.url).Some? then Some(ById(AfterPrefix(ItemPrefix, r.url).value))
      else None
    case POST =>
      if r.body.None? then None
      else if r.url == Collection then Some(Create(r.body.value))
      else if Between(ItemPrefix, SubmitSuffix, r.url).Some? && r.body.value.JObj? && |r.body.value.fields| == 1
              && r.body.value.fields[0].0 == "answers" then
        Some(Submit(Between(ItemPrefix, SubmitSuffix, r.url).value, r.body.value.fields[0].1))
      else None
    case PUT =>
      if AfterPrefix(ItemPrefix, r.url).Some? && r.body.Some? && r.body.value.JObj? then
        Some(Update(AfterPrefix(ItemPrefix, r.url).value, r.body.value.fields))
      else None
    case DELETE =>
      if r.body.None? && AfterPrefix(ItemPrefix, r.url).Some? then Some(Delete(AfterPrefix(ItemPrefix, r.url).value))
      else None
    case PATCH => None
  }

  /** `getQuizzes`: GET `/quizzes`. */
  function GetQuizzes(): (r: Request)
    ensures r.verb == GET && r.url == "/quizzes"
    ensures Decode(r) == Some(List)
  {
    Plain("/quizzes", GET)
  }

  /** The tags `getQuizzes` provides: one per quiz (id `_id || id`) then the collection tag;
      only the collection tag when the result has no `data`. */
  function GetQuizzesTags(data: Option<seq<QuizItem>>): (tags: seq<Tag>)
    ensures data.None? ==> tags == [QuizList]
    ensures data.Some? ==> |tags| == |data.value| + 1 && tags[|data.value|] == QuizList
    ensures data.Some? ==> forall i :: 0 <= i < |data.value| ==> tags[i] == QuizTag(Or(data.value[i].underscoreId, data.value[i].id))
  {
    if data.None? then [QuizList]
    else seq(|data.value|, i requires 0 <= i < |data.value| => QuizTag(Or(data.value[i].underscoreId, data.value[i].id))) + [QuizList]
  }

  /** `getQuizById(quizId)`: GET `/quizzes/{quizId}`. */
  function GetQuizById(quizId: string): (r: Request)
    ensures r.verb == GET && r.url == "/quizzes/" + quizId
    ensures Decode(r) == Some(ById(quizId))
  {
    AfterPrefixOf(ItemPrefix, quizId);
    Plain("/quizzes/" + quizId, GET)
  }

  function GetQuizByIdTags(quizId: string): (tags: seq<Tag>)
  {
    [QuizTag(Some(quizId))]
  }

  /** `createQuiz(payload)`: POST `/quizzes` with the payload as body. */
  function CreateQuiz(payload: Json): (r: Request)
    ensures r.verb == POST && r.url == "/quizzes" && r.body == Some(payload)
    ensures Decode(r) == Some(Create(payload))
  {
    WithBody("/quizzes", POST, payload)
  }

  function CreateQuizTags(): (tags: seq<Tag>)
  {
    [QuizList]
  }

  /** How a value prints inside a template literal: `undefined` for a missing one, else its `String` form. */
  function Interpolate(v: Option<Json>): string
  {
    match v
    case None => "undefined"
    case Some(j) => JsString(j)
  }

  /** `String(j)`: an array prints its elements joined by commas, `null` elements as nothing; an object
      prints as `[object Object]`. */
  function JsString(j: Json): string
    decreases j
  {
    match j
    case JNull => "null"
    case JBool(b) => if b then "true" else "false"
    case JNum(n) => IntToString(n)
    case JStr(s) => s
    case JArr(items) => Join(seq(|items|, i requires 0 <= i < |items| => if items[i].JNull? then "" else JsString(items[i])), ",")
    case JObj(_) => "[object Object]"
  }

  /** A JSON array of strings. */
  function StringArray(ss: seq<string>): Json
  {
    JArr(seq(|ss|, i requires 0 <= i < |ss| => JStr(ss[i])))
  }

  /** An array of strings prints as the strings joined by commas, and a non-empty one whose strings hold
      no comma splits back into them. */
  lemma ArrayOfStrings(ss: seq<string>)
    ensures Interpolate(Some(StringArray(ss))) == Join(ss, ",")
    ensures |ss| > 0 && (forall i :: 0 <= i < |ss| ==> ',' !in ss[i]) ==> Split(Interpolate(Some(StringArray(ss))), ',') == ss
  {
    var items := StringArray(ss).items;
    var texts := seq(|items|, i requires 0 <= i < |items| => if items[i].JNull? then "" else JsString(items[i]));
    assert texts == ss;
    if |ss| > 0 && (forall i :: 0 <= i < |ss| ==> ',' !in ss[i]) {
      SplitJoin(ss, ',');
    }
  }

  /** `updateQuiz({ id, ...patch })`: PUT `/quizzes/{id}` with every field except `id` as body. */
  function UpdateQuiz(arg: seq<(string, Json)>): (r: Request)
    ensures r.verb == PUT && r.url == "/quizzes/" + Interpolate(Get(arg, "id"))
    ensures r.body.Some? && r.body.value.JObj?
    ensures "id" !in Keys(r.body.value.fields)
    ensures forall p :: p in arg && p.0 != "id" ==> p in r.body.value.fields
    ensures forall p :: p in r.body.value.fields ==> p in arg
    ensures Decode(r) == Some(Update(Interpolate(Get(arg, "id")), WithoutKey(arg, "id")))
  {
    AfterPrefixOf(ItemPrefix, Interpolate(Get(arg, "id")));
    WithBody("/quizzes/" + Interpolate(Get(arg, "id")), PUT, JObj(WithoutKey(arg, "id")))
  }

  /** `updateQuiz` invalidates the tag of the quiz the argument's `id` names: the quiz whose path the PUT
      addresses, or a tag without id when the argument has none. */
  function UpdateQuizTags(arg: seq<(string, Json)>): (tags: seq<Tag>)
    ensures |tags| == 1 && tags[0].IdTag? && tags[0].tagType == QuizzesType
    ensures Get(arg, "id").None? ==> tags == [QuizTag(None)]
    ensures Get(arg, "id").Some? ==> tags == [QuizTag(Some(Decode(UpdateQuiz(arg)).value.quizId))]
    ensures forall s :: Get(arg, "id") == Some(JStr(s)) ==> tags == [QuizTag(Some(s))]
  {
    match Get(arg, "id")
    case Some(JStr(s)) => [QuizTag(Some(s))]
    case None => [QuizTag(None)]
    case Some(other) => [QuizTag(Some(Interpolate(Some(other))))]
  }

  /** `deleteQuiz(id)`: DELETE `/quizzes/{id}`. */
  function DeleteQuiz(quizId: string): (r: Request)
    ensures r.verb == DELETE && r.url == "/quizzes/" + quizId && r.body.None?
    ensures Decode(r) == Some(Delete(quizId))
  {
    AfterPrefixOf(ItemPrefix, quizId);
    Plain("/quizzes/" + quizId, DELETE)
  }

  function DeleteQuizTags(quizId: string): (tags: seq<Tag>)
  {
    [QuizTag(Some(quizId)), QuizList]
  }

  /** `submitQuiz({ quizId, answers })`: POST `/quizzes/{quizId}/submit` with body `{ answers }`. */
  function SubmitQuiz(quizId: string, answers: Json): (r: Request)
    ensures r.verb == POST && r.url == "/quizzes/" + quizId + "/submit"
    ensures r.body == Some(JObj([("answers", answers)]))
    ensures Decode(r) == Some(Submit(quizId, answers))
  {
    BetweenOf(ItemPrefix, quizId, SubmitSuffix);
    WithBody("/quizzes/" + quizId + "/submit", POST, JObj([("answers", answers)]))
  }

  function SubmitQuizTags(quizId: string): (tags: seq<Tag>)
  {
    [QuizTag(Some(quizId))]
  }

  /** Any create or delete refetches every quiz list; create leaves a cached single quiz alone; delete
      refetches the deleted quiz unless its id is empty, which no provider is filed under. */
  lemma ListInvalidation(data: Option<seq<QuizItem>>, quizId: string, other: string)
    requires other != ListId
    ensures Refetches(CreateQuizTags(), GetQuizzesTags(data))
    ensures Refetches(DeleteQuizTags(quizId), GetQuizzesTags(data))
    ensures !Refetches(CreateQuizTags(), GetQuizByIdTags(other))
    ensures Refetches(DeleteQuizTags(quizId), GetQuizByIdTags(quizId)) <==> quizId != ""
  {
    var provided := GetQuizzesTags(data);
    var last := |provided| - 1;
    assert Hits(CreateQuizTags()[0], provided[last]);
    assert Hits(DeleteQuizTags(quizId)[1], provided[last]);
    if quizId != "" {
      assert Hits(DeleteQuizTags(quizId)[0], GetQuizByIdTags(quizId)[0]);
    }
  }

  /** The request the application sends for a route. */
  function Encode(route: Route): Request
  {
    match route
    case List => GetQuizzes()
    case ById(id) => GetQuizById(id)
    case Create(p) => CreateQuiz(p)
    case Update(id, patch) => WithBody(ItemPrefix + id, PUT, JObj(patch))
    case Delete(id) => DeleteQuiz(id)
    case Submit(id, answers) => SubmitQuiz(id, answers)
  }

  /** Every request the server routes is, header aside, the one the application builds for that route. */
  lemma DecodeExact(r: Request)
    ensures Decode(r).Some? ==> Encode(Decode(r).value) == r.(authorization := None)
  {
    if Decode(r).Some? && Decode(r).value.Submit? {
      var fs := r.body.value.fields;
      assert fs == [("answers", fs[0].1)];
    }
  }

  /** The id a list entry is filed under. */
  function EntryKey(q: QuizItem): string
  {
    StoredId(QuizTag(Or(q.underscoreId, q.id)))
  }

  /**
   * Submitting a quiz refetches that quiz unless its id is empty, and a list exactly when one of its
   * entries is filed under that id: the entry whose `_id || id` is the id, or, for the reserved key, also an
   * entry without a usable id. An update whose `id` is a string invalidates exactly what a submit does;
   * an update without `id` refetches every list and every single quiz.
   */
  lemma ItemInvalidation(quizId: string, data: seq<QuizItem>, arg: seq<(string, Json)>)
    requires quizId != ListId
    ensures Refetches(SubmitQuizTags(quizId), GetQuizByIdTags(quizId)) <==> quizId != ""
    ensures quizId != WithoutId ==>
      (Refetches(SubmitQuizTags(quizId), GetQuizzesTags(Some(data))) <==>
       quizId != "" && exists i :: 0 <= i < |data| && Or(data[i].underscoreId, data[i].id) == Some(quizId))
    ensures quizId == WithoutId ==>
      (Refetches(SubmitQuizTags(quizId), GetQuizzesTags(Some(data))) <==>
       exists i :: 0 <= i < |data| && (!Truthy(Or(data[i].underscoreId, data[i].id)) || Or(data[i].underscoreId, data[i].id) == Some(WithoutId)))
    ensures Get(arg, "id") == Some(JStr(quizId)) ==> UpdateQuizTags(arg) == SubmitQuizTags(quizId)
    ensures Get(arg, "id").None? ==>
      Refetches(UpdateQuizTags(arg), GetQuizzesTags(Some(data))) && Refetches(UpdateQuizTags(arg), GetQuizByIdTags(quizId))
  {
    var provided := GetQuizzesTags(Some(data));
    var inv := SubmitQuizTags(quizId)[0];
    if quizId != "" {
      assert Hits(inv, GetQuizByIdTags(quizId)[0]);
    }
    ListHits(quizId, data);
    if Get(arg, "id").None? {
      assert Hits(UpdateQuizTags(arg)[0], provided[|data|]);
      assert Hits(UpdateQuizTags(arg)[0], GetQuizByIdTags(quizId)[0]);
    }
  }

  /** A quiz's tag hits a list exactly when some entry of the list is filed under the quiz's id. */
  lemma ListHits(quizId: string, data: seq<QuizItem>)
    requires quizId != ListId
    ensures Refetches(SubmitQuizTags(quizId), GetQuizzesTags(Some(data))) <==> exists i :: 0 <= i < |data| && EntryKey(data[i]) == quizId
    ensures quizId != WithoutId ==>
      ((exists i :: 0 <= i < |data| && EntryKey(data[i]) == quizId) <==>
       quizId != "" && exists i :: 0 <= i < |data| && Or(data[i].underscoreId, data[i].id) == Some(quizId))
    ensures quizId == WithoutId ==>
      ((exists i :: 0 <= i < |data| && EntryKey(data[i]) == quizId) <==>
       exists i :: 0 <= i < |data| && (!Truthy(Or(data[i].underscoreId, data[i].id)) || Or(data[i].underscoreId, data[i].id) == Some(WithoutId)))
  {
    var provided := GetQuizzesTags(Some(data));
    var inv := SubmitQuizTags(quizId)[0];
    assert forall j :: 0 <= j < |data| ==> (Hits(inv, provided[j]) <==> EntryKey(data[j]) == quizId);
    assert !Hits(inv, provided[|data|]);
    assert forall j :: 0 <= j < |data| ==>
      (EntryKey(data[j]) == quizId <==>
       (Or(data[j].underscoreId, data[j].id) == Some(quizId) && quizId != "") ||
       (quizId == WithoutId && !Truthy(Or(data[j].underscoreId, data[j].id))));
    if exists i :: 0 <= i < |data| && EntryKey(data[i]) == quizId {
      var i :| 0 <= i < |data| && EntryKey(data[i]) == quizId;
      assert Hits(inv, provided[i]);
    }
  }
}
