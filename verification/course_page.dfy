/**
 * The student course page: normalising the lessons response, and the
 * "mark complete" toggle with its optimistic update, the progress it
 * reports, the merge of the server's answer and the revert on failure.
 *
 * Two parts of the toggle are modelled twice: as the page computes them
 * (`ProgressAsWritten`, `RevertAsWritten`) and as evidently intended
 * (`Progress`, `Revert`); `HandleToggle` uses the intended ones.
 */
module CoursePage {
  import opened Js

  /** A lesson object as the server sends it; absent fields are `None`. */
  datatype RawLesson = RawLesson(underscoreId: Option<string>, id: Option<string>, title: Option<string>, name: Option<string>,
                                 video: Option<string>, videoUrl: Option<string>, videoLink: Option<string>,
                                 contentUrl: Option<string>, videoURL: Option<string>, completed: Option<bool>)

  /** The lessons response: missing, an array, an object (which may carry a `data` array), or another value. */
  datatype LessonsResponse =
    | Missing
    | ArrayResponse(items: seq<RawLesson>)
    | ObjectResponse(asLesson: RawLesson, dataArray: Option<seq<RawLesson>>)
    | OtherValue

  /** The raw lesson list: an array as is, `data` when it is an array, any other object as a singleton, else empty. */
  function RawLessons(resp: LessonsResponse): (r: seq<RawLesson>)
    ensures resp.ArrayResponse? ==> r == resp.items
    ensures resp.ObjectResponse? && resp.dataArray.Some? ==> r == resp.dataArray.value
    ensures resp.ObjectResponse? && resp.dataArray.None? ==> r == [resp.asLesson]
    ensures resp.Missing? || resp.OtherValue? ==> r == []
  {
    match resp
    case ArrayResponse(items) => items
    case ObjectResponse(o, data) => if data.Some? then data.value else [o]
    case _ => []
  }

  /** A lesson as the page keeps it. */
  datatype Lesson = Lesson(id: Option<string>, title: string, videoURL: string, completed: bool)

  const UntitledLesson := "Untitled Lesson"

  /** One raw lesson normalised: id `_id || id`, title `title || name || "Untitled Lesson"`,
      the first truthy video field or `""`, and `completed || false`. */
  function Normalize(l: RawLesson): (r: Lesson)
    ensures r.id == Or(l.underscoreId, l.id)
    ensures r.title != ""
    ensures Truthy(l.title) ==> r.title == l.title.value
    ensures !Truthy(l.title) && Truthy(l.name) ==> r.title == l.name.value
    ensures !Truthy(l.title) && !Truthy(l.name) ==> r.title == UntitledLesson
    ensures r.completed <==> l.completed == Some(true)
  {
    Lesson(Or(l.underscoreId, l.id),
           OrElse(l.title, OrElse(l.name, UntitledLesson)),
           OrElse(l.video, OrElse(l.videoUrl, OrElse(l.videoLink, OrElse(l.contentUrl, OrElse(l.videoURL, ""))))),
           l.completed == Some(true))
  }

  /** The lessons on screen: the normalised response when non-empty, else the course's syllabus. */
  function Lessons(resp: LessonsResponse, syllabus: seq<Lesson>): (r: seq<Lesson>)
    ensures |RawLessons(resp)| > 0 ==> |r| == |RawLessons(resp)| && forall i :: 0 <= i < |r| ==> r[i] == Normalize(RawLessons(resp)[i])
    ensures |RawLessons(resp)| == 0 ==> r == syllabus
  {
    var raw := RawLessons(resp);
    if |raw| > 0 then seq(|raw|, i requires 0 <= i < |raw| => Normalize(raw[i])) else syllabus
  }

  /** A page lesson as the server would send it back: `_id`, `title`, `videoURL` and a boolean `completed`. */
  function Raw(l: Lesson): RawLesson
  {
    RawLesson(l.id, None, Some(l.title), None, None, None, None, None, Some(l.videoURL), Some(l.completed))
  }

  /** A lesson the page could have produced: a titled lesson whose id, when present, is non-empty. */
  predicate Normalised(l: Lesson)
  {
    l.title != "" && (l.id.None? || Truthy(l.id))
  }

  /** Normalising is stable: a normalised lesson sent back by the server normalises to itself. */
  lemma NormalizeStable(l: Lesson)
    requires Normalised(l)
    ensures Normalize(Raw(l)) == l
  {
  }

  /** Whether the server sends the lessons as a bare array or wrapped in `data`, the page shows exactly
      those lessons, in order. */
  lemma {:induction false} LessonsRoundTrip(ls: seq<Lesson>, envelope: RawLesson, syllabus: seq<Lesson>)
    requires |ls| > 0 && forall i :: 0 <= i < |ls| ==> Normalised(ls[i])
    ensures var raw := seq(|ls|, i requires 0 <= i < |ls| => Raw(ls[i]));
      Lessons(ArrayResponse(raw), syllabus) == ls && Lessons(ObjectResponse(envelope, Some(raw)), syllabus) == ls
  {
    forall i | 0 <= i < |ls| ensures Normalize(Raw(ls[i])) == ls[i] {
      NormalizeStable(ls[i]);
    }
  }

  /** The fields of a lesson other than its completion flag agree. */
  predicate SameButCompletion(a: Lesson, b: Lesson)
  {
    a.id == b.id && a.title == b.title && a.videoURL == b.videoURL
  }

  /** The optimistic update: every lesson with the toggled id flips its flag; nothing else changes. */
  function Toggle(ls: seq<Lesson>, lessonId: Option<string>): (r: seq<Lesson>)
    ensures |r| == |ls|
    ensures forall i :: 0 <= i < |ls| ==> SameButCompletion(r[i], ls[i])
    ensures forall i :: 0 <= i < |ls| ==> (r[i].completed != ls[i].completed <==> ls[i].id == lessonId)
  {
    seq(|ls|, i requires 0 <= i < |ls| => if ls[i].id == lessonId then ls[i].(completed := !ls[i].completed) else ls[i])
  }

  /** Toggling the same lesson twice restores the list. */
  lemma ToggleTwice(ls: seq<Lesson>, lessonId: Option<string>)
    ensures Toggle(Toggle(ls, lessonId), lessonId) == ls
  {
  }

  /** `prev?.completed || false`: the flag of the first lesson with that id, false when there is none. */
  function PrevCompleted(ls: seq<Lesson>, lessonId: Option<string>): (b: bool)
    ensures b ==> exists i :: 0 <= i < |ls| && ls[i].id == lessonId && ls[i].completed
    ensures (forall i :: 0 <= i < |ls| ==> ls[i].id != lessonId) ==> !b
  {
    if |ls| == 0 then false
    else if ls[0].id == lessonId then ls[0].completed
    else
      var b := PrevCompleted(ls[1..], lessonId);
      assert b ==> exists i :: 0 <= i < |ls| && ls[i].id == lessonId && ls[i].completed by {
        if b {
          var i :| 0 <= i < |ls| - 1 && ls[1..][i].id == lessonId && ls[1..][i].completed;
          assert ls[i + 1] == ls[1..][i];
        }
      }
      b
  }

  /** The number of completed lessons. */
  function Done(ls: seq<Lesson>): (n: nat)
    ensures n <= |ls|
  {
    if |ls| == 0 then 0 else (if ls[0].completed then 1 else 0) + Done(ls[1..])
  }

  /** `Math.round(done / total * 100)` with `total = length || 1`. */
  function Ratio(ls: seq<Lesson>): (p: int)
    ensures 0 <= p <= 100
  {
    var total := if |ls| == 0 then 1 else |ls|;
    RoundDivBetween(100 * Done(ls), total, 0, 100);
    RoundDiv(100 * Done(ls), total)
  }

  /** The progress the page reports after the toggle, as written: the completed share,
      except that marking any lesson complete reports 100. */
  function ProgressAsWritten(updated: seq<Lesson>, prevCompleted: bool): (p: int)
    ensures 0 <= p <= 100
    ensures !prevCompleted ==> p == 100
    ensures prevCompleted ==> p == Ratio(updated)
  {
    if !prevCompleted then 100 else Ratio(updated)
  }

  /** The progress as evidently intended: the completed share, whichever way the lesson was toggled. */
  function Progress(updated: seq<Lesson>): (p: int)
    ensures 0 <= p <= 100
    ensures Done(updated) == 0 ==> p == 0
    ensures |updated| > 0 && Done(updated) == |updated| ==> p == 100
  {
    RatioEnds(updated);
    Ratio(updated)
  }

  /** No completed lesson rounds to 0%, and every lesson completed to 100%. */
  lemma RatioEnds(ls: seq<Lesson>)
    ensures Done(ls) == 0 ==> Ratio(ls) == 0
    ensures |ls| > 0 && Done(ls) == |ls| ==> Ratio(ls) == 100
  {
    var n := if |ls| == 0 then 1 else |ls|;
    if Done(ls) == 0 {
      RoundDivBetween(0, n, 0, 0);
    } else if Done(ls) == |ls| {
      RoundDivBetween(100 * n, n, 100, 100);
    }
  }

  /** Ticking the first of two open lessons reports 100% although half the course remains. */
  lemma ProgressAsWrittenOvershoots()
    ensures var ls := [Lesson(Some("a"), "A", "", false), Lesson(Some("b"), "B", "", false)];
      var updated := Toggle(ls, Some("a"));
      ProgressAsWritten(updated, PrevCompleted(ls, Some("a"))) == 100 && Progress(updated) == 50
  {
    var ls := [Lesson(Some("a"), "A", "", false), Lesson(Some("b"), "B", "", false)];
    var updated := Toggle(ls, Some("a"));
    assert updated == [Lesson(Some("a"), "A", "", true), Lesson(Some("b"), "B", "", false)];
    assert Done(updated) == 1 by {
      assert updated[1..] == [Lesson(Some("b"), "B", "", false)];
    }
  }

  /** The intended progress agrees with the page whenever a lesson is un-ticked, and it never exceeds the page's value. */
  lemma ProgressAgreesOnUntick(ls: seq<Lesson>, lessonId: Option<string>)
    ensures var updated := Toggle(ls, lessonId);
      var prev := PrevCompleted(ls, lessonId);
      (prev ==> Progress(updated) == ProgressAsWritten(updated, prev))
      && Progress(updated) <= ProgressAsWritten(updated, prev)
  {
  }

  /** Some completed lesson has id `x`. */
  predicate HasCompletedId(ls: seq<Lesson>, x: Option<string>)
  {
    exists i :: 0 <= i < |ls| && ls[i].completed && ls[i].id == x
  }

  /** `completedLessons`: the ids of the completed lessons, in lesson order. */
  function CompletedIds(ls: seq<Lesson>): (ids: seq<Option<string>>)
    ensures |ids| == Done(ls)
    ensures forall x :: x in ids <==> HasCompletedId(ls, x)
  {
    if |ls| == 0 then []
    else
      var rest := CompletedIds(ls[1..]);
      assert forall x :: HasCompletedId(ls, x) <==> (ls[0].completed && ls[0].id == x) || HasCompletedId(ls[1..], x) by {
        forall x | HasCompletedId(ls, x) && !(ls[0].completed && ls[0].id == x) ensures HasCompletedId(ls[1..], x) {
          var i :| 0 <= i < |ls| && ls[i].completed && ls[i].id == x;
          assert ls[1..][i - 1] == ls[i];
        }
        forall x | HasCompletedId(ls[1..], x) ensures HasCompletedId(ls, x) {
          var i :| 0 <= i < |ls| - 1 && ls[1..][i].completed && ls[1..][i].id == x;
          assert ls[1..][i] == ls[i + 1];
        }
      }
      if ls[0].completed then [ls[0].id] + rest else rest
  }

  /** The completed ids keep the lesson order: the ids of a concatenation are the ids of each part, in place. */
  lemma {:induction false} CompletedIdsAppend(a: seq<Lesson>, b: seq<Lesson>)
    ensures CompletedIds(a + b) == CompletedIds(a) + CompletedIds(b)
  {
    if |a| == 0 {
      assert a + b == b;
    } else {
      var ab := a + b;
      assert ab[0] == a[0] && ab[1..] == a[1..] + b;
      CompletedIdsAppend(a[1..], b);
      if a[0].completed {
        assert CompletedIds(ab) == [a[0].id] + CompletedIds(ab[1..]);
        assert CompletedIds(a) == [a[0].id] + CompletedIds(a[1..]);
      } else {
        assert CompletedIds(ab) == CompletedIds(ab[1..]);
        assert CompletedIds(a) == CompletedIds(a[1..]);
      }
    }
  }

  /** A single lesson contributes its id exactly when it is completed; with `CompletedIdsAppend` this fixes
      the ids as those of the completed lessons in lesson order. */
  lemma CompletedIdsOne(l: Lesson)
    ensures CompletedIds([l]) == (if l.completed then [l.id] else [])
  {
    assert [l][1..] == [];
  }

  /** The body of the progress PATCH. */
  datatype ProgressBody = ProgressBody(progress: int, completedLessons: seq<Option<string>>)

  /** The enrollment in the server's reply, when the reply carries one. */
  datatype Enrollment = Enrollment(progress: Option<int>, completedLessons: Option<seq<string>>)

  /** `(enrollment.completedLessons || []).includes(l.id)`; a lesson without id is never listed. */
  predicate Listed(e: Enrollment, id: Option<string>)
  {
    e.completedLessons.Some? && id.Some? && id.value in e.completedLessons.value
  }

  /** The server merge: a lesson is completed when the server lists it or it already was. */
  function MergeLessons(ls: seq<Lesson>, e: Enrollment): (r: seq<Lesson>)
    ensures |r| == |ls|
    ensures forall i :: 0 <= i < |ls| ==> SameButCompletion(r[i], ls[i])
    ensures forall i :: 0 <= i < |ls| ==> (r[i].completed <==> Listed(e, ls[i].id) || ls[i].completed)
  {
    seq(|ls|, i requires 0 <= i < |ls| => ls[i].(completed := Listed(e, ls[i].id) || ls[i].completed))
  }

  /** The merge never un-completes a lesson, and merging the same reply twice changes nothing more. */
  lemma MergeMonotoneIdempotent(ls: seq<Lesson>, e: Enrollment)
    ensures forall i :: 0 <= i < |ls| && ls[i].completed ==> MergeLessons(ls, e)[i].completed
    ensures MergeLessons(MergeLessons(ls, e), e) == MergeLessons(ls, e)
    ensures Done(ls) <= Done(MergeLessons(ls, e))
  {
    DoneMonotone(ls, MergeLessons(ls, e));
  }

  /** Completing more lessons, position by position, never lowers the count. */
  lemma {:induction false} DoneMonotone(a: seq<Lesson>, b: seq<Lesson>)
    requires |a| == |b| && forall i :: 0 <= i < |a| && a[i].completed ==> b[i].completed
    ensures Done(a) <= Done(b)
  {
    if |a| > 0 {
      DoneMonotone(a[1..], b[1..]);
    }
  }

  /** The failure handler as written: the toggled lessons are set to `!prevCompleted`. */
  function RevertAsWritten(ls: seq<Lesson>, lessonId: Option<string>, prevCompleted: bool): (r: seq<Lesson>)
    ensures |r| == |ls|
    ensures forall i :: 0 <= i < |ls| ==> SameButCompletion(r[i], ls[i])
    ensures forall i :: 0 <= i < |ls| ==> r[i].completed == (if ls[i].id == lessonId then !prevCompleted else ls[i].completed)
  {
    seq(|ls|, i requires 0 <= i < |ls| => if ls[i].id == lessonId then ls[i].(completed := !prevCompleted) else ls[i])
  }

  /** The failure handler as intended: the toggled lessons get their previous flag back. */
  function Revert(ls: seq<Lesson>, lessonId: Option<string>, prevCompleted: bool): (r: seq<Lesson>)
    ensures |r| == |ls|
    ensures forall i :: 0 <= i < |ls| ==> SameButCompletion(r[i], ls[i])
    ensures forall i :: 0 <= i < |ls| ==> r[i].completed == (if ls[i].id == lessonId then prevCompleted else ls[i].completed)
  {
    seq(|ls|, i requires 0 <= i < |ls| => if ls[i].id == lessonId then ls[i].(completed := prevCompleted) else ls[i])
  }

  /** Lesson ids are pairwise distinct. */
  predicate DistinctIds(ls: seq<Lesson>)
  {
    forall i, j :: 0 <= i < j < |ls| ==> ls[i].id != ls[j].id
  }

  /** With distinct ids the flag of the toggled lesson is its only occurrence's flag. */
  lemma PrevCompletedAt(ls: seq<Lesson>, lessonId: Option<string>, k: nat)
    requires DistinctIds(ls) && k < |ls| && ls[k].id == lessonId
    ensures PrevCompleted(ls, lessonId) == ls[k].completed
  {
    if k > 0 {
      assert ls[0].id != lessonId by { assert ls[0].id != ls[k].id; }
      assert DistinctIds(ls[1..]) by {
        forall i, j | 0 <= i < j < |ls| - 1 ensures ls[1..][i].id != ls[1..][j].id {
          assert ls[1..][i] == ls[i + 1] && ls[1..][j] == ls[j + 1];
        }
      }
      PrevCompletedAt(ls[1..], lessonId, k - 1);
    }
  }

  /** As written, the failure handler leaves the optimistic update in place: nothing is reverted. */
  lemma RevertAsWrittenKeepsOptimistic(ls: seq<Lesson>, lessonId: Option<string>)
    requires DistinctIds(ls)
    ensures var optimistic := Toggle(ls, lessonId);
      RevertAsWritten(optimistic, lessonId, PrevCompleted(ls, lessonId)) == optimistic
  {
    var optimistic := Toggle(ls, lessonId);
    var r := RevertAsWritten(optimistic, lessonId, PrevCompleted(ls, lessonId));
    forall i | 0 <= i < |ls| ensures r[i] == optimistic[i] {
      if ls[i].id == lessonId {
        PrevCompletedAt(ls, lessonId, i);
      }
    }
  }

  /** A concrete case: ticking an open lesson and failing leaves it ticked. */
  lemma RevertAsWrittenExample()
    ensures var ls := [Lesson(Some("a"), "A", "", false)];
      RevertAsWritten(Toggle(ls, Some("a")), Some("a"), PrevCompleted(ls, Some("a"))) == [Lesson(Some("a"), "A", "", true)]
  {
    var ls := [Lesson(Some("a"), "A", "", false)];
    assert Toggle(ls, Some("a")) == [Lesson(Some("a"), "A", "", true)];
  }

  /** As intended, the failure handler undoes the optimistic update exactly. */
  lemma RevertUndoesToggle(ls: seq<Lesson>, lessonId: Option<string>)
    requires DistinctIds(ls)
    ensures Revert(Toggle(ls, lessonId), lessonId, PrevCompleted(ls, lessonId)) == ls
  {
    var r := Revert(Toggle(ls, lessonId), lessonId, PrevCompleted(ls, lessonId));
    forall i | 0 <= i < |ls| ensures r[i] == ls[i] {
      if ls[i].id == lessonId {
        PrevCompletedAt(ls, lessonId, i);
      }
    }
  }

  /** The course as the page holds it locally. */
  datatype LocalCourse = LocalCourse(id: string, lessons: seq<Lesson>, progress: int)

  /** How the progress PATCH ended: a reply (possibly without an enrollment), or an error. */
  datatype Reply = Answered(enrollment: Option<Enrollment>) | Errored

  /** The request the toggle sends: the progress and the completed ids after the optimistic update. */
  function ToggleRequest(c: LocalCourse, lessonId: Option<string>): (body: ProgressBody)
    ensures body.progress == Progress(Toggle(c.lessons, lessonId))
    ensures body.completedLessons == CompletedIds(Toggle(c.lessons, lessonId))
  {
    var updated := Toggle(c.lessons, lessonId);
    ProgressBody(Progress(updated), CompletedIds(updated))
  }

  /** The request the toggle sends, as written: the progress is the forced 100 of a tick, else the completed
      share; the completed ids are those of the intended request. */
  function ToggleRequestAsWritten(c: LocalCourse, lessonId: Option<string>): (body: ProgressBody)
    ensures !PrevCompleted(c.lessons, lessonId) ==> body.progress == 100
    ensures PrevCompleted(c.lessons, lessonId) ==> body == ToggleRequest(c, lessonId)
    ensures body.completedLessons == ToggleRequest(c, lessonId).completedLessons
    ensures ToggleRequest(c, lessonId).progress <= body.progress
  {
    var updated := Toggle(c.lessons, lessonId);
    ProgressAgreesOnUntick(c.lessons, lessonId);
    ProgressBody(ProgressAsWritten(updated, PrevCompleted(c.lessons, lessonId)), CompletedIds(updated))
  }

  /** Ticking the first of two open lessons sends progress 100 with one completed id, where the intended
      request sends 50. */
  lemma ToggleRequestOvershoots(c: LocalCourse)
    requires c.lessons == [Lesson(Some("a"), "A", "", false), Lesson(Some("b"), "B", "", false)]
    ensures ToggleRequestAsWritten(c, Some("a")) == ProgressBody(100, [Some("a")])
    ensures ToggleRequest(c, Some("a")) == ProgressBody(50, [Some("a")])
  {
    ProgressAsWrittenOvershoots();
    var updated := Toggle(c.lessons, Some("a"));
    assert updated == [Lesson(Some("a"), "A", "", true), Lesson(Some("b"), "B", "", false)];
    CompletedIdsAppend([updated[0]], [updated[1]]);
    CompletedIdsOne(updated[0]);
    CompletedIdsOne(updated[1]);
    assert updated == [updated[0]] + [updated[1]];
  }

  /** `handleToggleComplete` with the intended progress and revert: the local course after the reply. */
  function HandleToggle(c: LocalCourse, lessonId: Option<string>, reply: Reply): (r: LocalCourse)
    ensures r.id == c.id && |r.lessons| == |c.lessons|
    ensures reply.Errored? && DistinctIds(c.lessons) ==> r == c
    ensures reply == Answered(None) ==> r.lessons == Toggle(c.lessons, lessonId) && r.progress == ToggleRequest(c, lessonId).progress
    ensures reply.Answered? && reply.enrollment.Some? ==>
      r.lessons == MergeLessons(Toggle(c.lessons, lessonId), reply.enrollment.value)
      && r.progress == Coalesce(reply.enrollment.value.progress, ToggleRequest(c, lessonId).progress)
  {
    var updated := Toggle(c.lessons, lessonId);
    var optimistic := c.(lessons := updated, progress := Progress(updated));
    match reply
    case Answered(None) => optimistic
    case Answered(Some(e)) =>
      optimistic.(progress := Coalesce(e.progress, optimistic.progress), lessons := MergeLessons(updated, e))
    case Errored =>
      var prev := PrevCompleted(c.lessons, lessonId);
      if DistinctIds(c.lessons) then
        RevertUndoesToggle(c.lessons, lessonId);
        optimistic.(lessons := Revert(updated, lessonId, prev), progress := c.progress)
      else
        optimistic.(lessons := Revert(updated, lessonId, prev), progress := c.progress)
  }

  /** `handleToggleComplete` as written: forced progress, and a failure that keeps the optimistic state. */
  function HandleToggleAsWritten(c: LocalCourse, lessonId: Option<string>, reply: Reply): (r: LocalCourse)
    ensures r.id == c.id && |r.lessons| == |c.lessons|
    ensures reply.Errored? && DistinctIds(c.lessons) ==>
      r.lessons == Toggle(c.lessons, lessonId) && r.progress == ProgressAsWritten(r.lessons, PrevCompleted(c.lessons, lessonId))
  {
    var updated := Toggle(c.lessons, lessonId);
    var prev := PrevCompleted(c.lessons, lessonId);
    var optimistic := c.(lessons := updated, progress := ProgressAsWritten(updated, prev));
    match reply
    case Answered(None) => optimistic
    case Answered(Some(e)) =>
      optimistic.(progress := Coalesce(e.progress, optimistic.progress), lessons := MergeLessons(updated, e))
    case Errored =>
      if DistinctIds(c.lessons) then
        RevertAsWrittenKeepsOptimistic(c.lessons, lessonId);
        optimistic.(lessons := RevertAsWritten(updated, lessonId, prev))
      else
        optimistic.(lessons := RevertAsWritten(updated, lessonId, prev))
  }
}
