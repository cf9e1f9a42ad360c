/**
 * The batch administration page: the summary statistics, a batch's
 * status against the current time, the search and capacity filter, and
 * the local delete, edit and create operations. Dates are instants (for
 * example milliseconds since the epoch); the current time and the id of
 * a new batch are parameters.
 */
module Batch {
  import opened Js
  import opened Text

  datatype CourseRef = CourseRef(id: string, title: string, instructorName: string)

  /** A batch; `enrolled` is the length of its enrollments array. */
  datatype Batch = Batch(id: string, name: string, course: CourseRef, start: int, end: int, enrolled: nat, capacity: int)

  /** The batch's enrollments have reached its capacity. */
  predicate Full(b: Batch)
  {
    b.enrolled >= b.capacity
  }

  /** The statistics' notion of running: started and not yet ended. */
  predicate Running(b: Batch, now: int)
  {
    b.start <= now && b.end >= now
  }

  datatype Status = Upcoming | Completed | Active

  /** The badge on a batch card. */
  function StatusOf(b: Batch, now: int): (s: Status)
    ensures s == Upcoming <==> now < b.start
    ensures s == Completed <==> b.start <= now && now > b.end
  {
    if now < b.start then Upcoming else if now > b.end then Completed else Active
  }

  /** The badge says "active" exactly for the batches the statistics count as active. */
  lemma ActiveAgrees(b: Batch, now: int)
    ensures StatusOf(b, now) == Active <==> Running(b, now)
  {
  }

  function CountRunning(bs: seq<Batch>, now: int): nat
  {
    if |bs| == 0 then 0 else (if Running(bs[0], now) then 1 else 0) + CountRunning(bs[1..], now)
  }

  function CountFull(bs: seq<Batch>): nat
  {
    if |bs| == 0 then 0 else (if Full(bs[0]) then 1 else 0) + CountFull(bs[1..])
  }

  function TotalEnrolled(bs: seq<Batch>): nat
  {
    if |bs| == 0 then 0 else bs[0].enrolled + TotalEnrolled(bs[1..])
  }

  datatype Stats = Stats(total: nat, active: nat, full: nat, avgCapacity: int)

  /** The four cards; with no batches every figure is 0. */
  function ComputeStats(bs: seq<Batch>, now: int): (s: Stats)
    ensures s.total == |bs|
    ensures bs == [] ==> s == Stats(0, 0, 0, 0)
    ensures s.active <= s.total && s.full <= s.total
    ensures s.active == CountRunning(bs, now) && s.full == CountFull(bs)
    ensures |bs| > 0 ==> s.avgCapacity == RoundDiv(TotalEnrolled(bs), |bs|)
  {
    CountsBounded(bs, now);
    if |bs| == 0 then Stats(0, 0, 0, 0)
    else Stats(|bs|, CountRunning(bs, now), CountFull(bs), RoundDiv(TotalEnrolled(bs), |bs|))
  }

  lemma {:induction false} CountsBounded(bs: seq<Batch>, now: int)
    ensures CountRunning(bs, now) <= |bs| && CountFull(bs) <= |bs|
  {
    if |bs| > 0 {
      CountsBounded(bs[1..], now);
    }
  }

  /** Every batch enrolls between `lo` and `hi` students. */
  predicate EnrolledBetween(bs: seq<Batch>, lo: int, hi: int)
  {
    forall i :: 0 <= i < |bs| ==> lo <= bs[i].enrolled <= hi
  }

  lemma {:induction false} TotalEnrolledBetween(bs: seq<Batch>, lo: int, hi: int)
    requires EnrolledBetween(bs, lo, hi)
    ensures |bs| * lo <= TotalEnrolled(bs) <= |bs| * hi
  {
    if |bs| > 0 {
      TotalEnrolledBetween(bs[1..], lo, hi);
      assert |bs| * lo == lo + (|bs| - 1) * lo;
      assert |bs| * hi == hi + (|bs| - 1) * hi;
    }
  }

  /** The average-enrollment card lies between the smallest and largest enrollment. */
  lemma AverageBetween(bs: seq<Batch>, now: int, lo: int, hi: int)
    requires |bs| > 0 && EnrolledBetween(bs, lo, hi)
    ensures lo <= ComputeStats(bs, now).avgCapacity <= hi
  {
    TotalEnrolledBetween(bs, lo, hi);
    RoundDivBetween(TotalEnrolled(bs), |bs|, lo, hi);
  }

  /** The search box: case-insensitive (ASCII) substring of the name, course title or instructor. */
  predicate MatchesSearch(b: Batch, term: string)
  {
    Includes(Lower(b.name), Lower(term)) || Includes(Lower(b.course.title), Lower(term))
    || Includes(Lower(b.course.instructorName), Lower(term))
  }

  /** The capacity select: `""` keeps all, `"full"` and `"available"` split by capacity, any other value keeps none. */
  predicate MatchesCapacity(b: Batch, filter: string)
  {
    filter == "" || (filter == "full" && Full(b)) || (filter == "available" && !Full(b))
  }

  predicate Shown(b: Batch, term: string, filter: string)
  {
    MatchesSearch(b, term) && MatchesCapacity(b, filter)
  }

  /** The batches on screen, in list order. */
  function Filter(bs: seq<Batch>, term: string, filter: string): (r: seq<Batch>)
    ensures |r| <= |bs|
    ensures forall b :: b in r <==> b in bs && Shown(b, term, filter)
  {
    if |bs| == 0 then []
    else if Shown(bs[0], term, filter) then [bs[0]] + Filter(bs[1..], term, filter)
    else Filter(bs[1..], term, filter)
  }

  /** With an empty search box and no capacity filter every batch is shown. */
  lemma {:induction false} NoFilterShowsAll(bs: seq<Batch>)
    ensures Filter(bs, "", "") == bs
  {
    if |bs| > 0 {
      assert OccursAt(Lower(bs[0].name), Lower(""), 0);
      NoFilterShowsAll(bs[1..]);
    }
  }

  /** "Full" and "available" split the searched batches between them. */
  lemma {:induction false} FullAndAvailablePartition(bs: seq<Batch>, term: string)
    ensures |Filter(bs, term, "full")| + |Filter(bs, term, "available")| == |Filter(bs, term, "")|
  {
    if |bs| > 0 {
      FullAndAvailablePartition(bs[1..], term);
    }
  }

  /** The filter keeps the list order: filtering a concatenation filters each part in place. */
  lemma {:induction false} FilterAppend(a: seq<Batch>, b: seq<Batch>, term: string, filter: string)
    ensures Filter(a + b, term, filter) == Filter(a, term, filter) + Filter(b, term, filter)
  {
    if |a| == 0 {
      assert a + b == b;
    } else {
      var ab := a + b;
      assert ab[0] == a[0] && ab[1..] == a[1..] + b;
      FilterAppend(a[1..], b, term, filter);
      FilterOne(a[0], term, filter);
      if Shown(a[0], term, filter) {
        assert Filter(ab, term, filter) == [a[0]] + Filter(ab[1..], term, filter);
      } else {
        assert Filter(ab, term, filter) == Filter(ab[1..], term, filter);
      }
    }
  }

  /** A single batch is kept exactly when it is shown; with `FilterAppend` this fixes the result as the
      shown batches in list order. */
  lemma FilterOne(x: Batch, term: string, filter: string)
    ensures Filter([x], term, filter) == (if Shown(x, term, filter) then [x] else [])
  {
    assert [x][1..] == [];
  }

  /** `prev.filter(b => b._id !== batchId)`. */
  function Delete(bs: seq<Batch>, batchId: string): (r: seq<Batch>)
    ensures forall i :: 0 <= i < |r| ==> r[i].id != batchId
    ensures forall b :: b in r <==> b in bs && b.id != batchId
    ensures |r| <= |bs|
  {
    if |bs| == 0 then []
    else if bs[0].id == batchId then Delete(bs[1..], batchId)
    else [bs[0]] + Delete(bs[1..], batchId)
  }

  /** Deleting keeps the survivors in order: deleting from a concatenation deletes from each part in place,
      and a single batch survives exactly when its id differs. */
  lemma {:induction false} DeleteAppend(a: seq<Batch>, b: seq<Batch>, batchId: string)
    ensures Delete(a + b, batchId) == Delete(a, batchId) + Delete(b, batchId)
    ensures forall x :: Delete([x], batchId) == (if x.id != batchId then [x] else [])
  {
    if |a| == 0 {
      assert a + b == b;
    } else {
      DeleteStep(a, b, batchId);
      DeleteAppend(a[1..], b, batchId);
      ConsAppend(if a[0].id == batchId then [] else [a[0]],
                 Delete(a + b, batchId), Delete(a[1..] + b, batchId), Delete(a, batchId), Delete(a[1..], batchId), Delete(b, batchId));
    }
    forall x ensures Delete([x], batchId) == (if x.id != batchId then [x] else []) {
      DeleteOne(x, batchId);
    }
  }

  lemma DeleteStep(a: seq<Batch>, b: seq<Batch>, batchId: string)
    requires |a| > 0
    ensures var head := if a[0].id == batchId then [] else [a[0]];
      Delete(a + b, batchId) == head + Delete(a[1..] + b, batchId) && Delete(a, batchId) == head + Delete(a[1..], batchId)
  {
    var ab := a + b;
    assert ab[0] == a[0] && ab[1..] == a[1..] + b;
  }

  /** Sequence bookkeeping of an append proof's step, kept apart from the functions it is applied to. */
  lemma ConsAppend(head: seq<Batch>, whole: seq<Batch>, rest: seq<Batch>, left: seq<Batch>, leftRest: seq<Batch>, right: seq<Batch>)
    requires whole == head + rest && left == head + leftRest && rest == leftRest + right
    ensures whole == left + right
  {
  }

  lemma DeleteOne(x: Batch, batchId: string)
    ensures Delete([x], batchId) == (if x.id != batchId then [x] else [])
  {
    assert [x][1..] == [];
  }

  /** The edit form's fields. */
  datatype Form = Form(name: string, courseId: string, start: int, end: int, instructor: string, capacity: int)

  /** One batch after the edit form is saved: title and enrollments are kept. */
  function Edited(b: Batch, f: Form): Batch
  {
    b.(name := f.name, course := b.course.(id := f.courseId, instructorName := f.instructor),
       start := f.start, end := f.end, capacity := f.capacity)
  }

  /** Saving in edit mode: every batch with the edited id takes the form's fields; the others are untouched. */
  function SubmitEdit(bs: seq<Batch>, selectedId: string, f: Form): (r: seq<Batch>)
    ensures |r| == |bs|
    ensures forall i :: 0 <= i < |bs| ==> r[i].id == bs[i].id && r[i].enrolled == bs[i].enrolled
    ensures forall i :: 0 <= i < |bs| && bs[i].id != selectedId ==> r[i] == bs[i]
    ensures forall i :: 0 <= i < |bs| && bs[i].id == selectedId ==>
      r[i].name == f.name && r[i].capacity == f.capacity && r[i].course.title == bs[i].course.title
    ensures forall i :: 0 <= i < |bs| && bs[i].id == selectedId ==>
      r[i].course.id == f.courseId && r[i].course.instructorName == f.instructor && r[i].start == f.start && r[i].end == f.end
  {
    seq(|bs|, i requires 0 <= i < |bs| => if bs[i].id == selectedId then Edited(bs[i], f) else bs[i])
  }

  /** Saving an edit keeps the statistics' batch count, total enrolment and average, and saving the same
      form again changes nothing more. */
  lemma {:induction false} EditKeepsEnrolment(bs: seq<Batch>, selectedId: string, f: Form, now: int)
    ensures TotalEnrolled(SubmitEdit(bs, selectedId, f)) == TotalEnrolled(bs)
    ensures ComputeStats(SubmitEdit(bs, selectedId, f), now).total == ComputeStats(bs, now).total
    ensures ComputeStats(SubmitEdit(bs, selectedId, f), now).avgCapacity == ComputeStats(bs, now).avgCapacity
    ensures SubmitEdit(SubmitEdit(bs, selectedId, f), selectedId, f) == SubmitEdit(bs, selectedId, f)
  {
    if |bs| > 0 {
      assert SubmitEdit(bs, selectedId, f)[1..] == SubmitEdit(bs[1..], selectedId, f);
      EditKeepsEnrolment(bs[1..], selectedId, f, now);
    }
  }

  /** Saving in create mode: a new empty batch is appended under a fresh id. */
  function SubmitCreate(bs: seq<Batch>, f: Form, newId: string): (r: seq<Batch>)
    ensures |r| == |bs| + 1 && r[..|bs|] == bs
    ensures r[|bs|].id == newId && r[|bs|].enrolled == 0
    ensures r[|bs|].course.title == "Course " + f.courseId
  {
    bs + [Batch(newId, f.name, CourseRef(f.courseId, "Course " + f.courseId, f.instructor), f.start, f.end, 0, f.capacity)]
  }

  /** Creating a batch under a fresh id and deleting it again restores the list. */
  lemma {:induction false} DeleteUndoesCreate(bs: seq<Batch>, f: Form, newId: string)
    requires forall i :: 0 <= i < |bs| ==> bs[i].id != newId
    ensures Delete(SubmitCreate(bs, f, newId), newId) == bs
  {
    var nb := SubmitCreate(bs, f, newId)[|bs|];
    DeleteAppended(bs, nb);
  }

  lemma {:induction false} DeleteAppended(bs: seq<Batch>, nb: Batch)
    requires forall i :: 0 <= i < |bs| ==> bs[i].id != nb.id
    ensures Delete(bs + [nb], nb.id) == bs
  {
    if |bs| == 0 {
      assert bs + [nb] == [nb];
    } else {
      assert (bs + [nb])[1..] == bs[1..] + [nb];
      DeleteAppended(bs[1..], nb);
    }
  }

  /** A new batch is never full unless its capacity is at most zero, so the statistics count it accordingly. */
  lemma {:induction false} CreateStats(bs: seq<Batch>, f: Form, newId: string, now: int)
    ensures var after := ComputeStats(SubmitCreate(bs, f, newId), now);
      after.total == |bs| + 1 && after.full == CountFull(bs) + (if f.capacity <= 0 then 1 else 0)
  {
    var nb := SubmitCreate(bs, f, newId)[|bs|];
    CountFullAppend(bs, nb);
  }

  lemma {:induction false} CountFullAppend(bs: seq<Batch>, nb: Batch)
    ensures CountFull(bs + [nb]) == CountFull(bs) + (if Full(nb) then 1 else 0)
  {
    if |bs| == 0 {
      assert bs + [nb] == [nb];
    } else {
      assert (bs + [nb])[1..] == bs[1..] + [nb];
      CountFullAppend(bs[1..], nb);
    }
  }
}
