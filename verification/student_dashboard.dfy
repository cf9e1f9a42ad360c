/**
 * The student dashboard: enrollments mapped to course cards, the fallback
 * to the sample catalogue's enrolled courses, and the average progress.
 */
module StudentDashboard {
  import opened Js

  /** The course inside an enrollment; `syllabusLength` is `None` when there is no syllabus. */
  datatype CourseInfo = CourseInfo(id: Option<string>, title: Option<string>, syllabusLength: Option<nat>)

  datatype Enrollment = Enrollment(course: Option<CourseInfo>, progress: Option<int>)

  /** A course card. */
  datatype CourseCard = CourseCard(id: Option<string>, title: Option<string>, progress: int, lessons: nat)

  /** A sample-catalogue course with its `enrolled` flag. */
  datatype SampleCourse = SampleCourse(card: CourseCard, enrolled: bool)

  /** One enrollment as a card: progress `?? 0`, lesson count the syllabus length or 0. */
  function ToCard(e: Enrollment): (c: CourseCard)
    ensures e.progress.Some? ==> c.progress == e.progress.value
    ensures e.progress.None? ==> c.progress == 0
    ensures e.course.None? || e.course.value.syllabusLength.None? ==> c.lessons == 0
    ensures e.course.Some? && e.course.value.syllabusLength.Some? ==> c.lessons == e.course.value.syllabusLength.value
    ensures e.course.Some? ==> c.id == e.course.value.id && c.title == e.course.value.title
  {
    var info := if e.course.Some? then e.course.value else CourseInfo(None, None, None);
    CourseCard(info.id, info.title, Coalesce(e.progress, 0), if info.syllabusLength.Some? then info.syllabusLength.value else 0)
  }

  /** `c` is the card of an enrolled sample course. */
  predicate EnrolledSample(samples: seq<SampleCourse>, c: CourseCard)
  {
    exists i :: 0 <= i < |samples| && samples[i].enrolled && samples[i].card == c
  }

  /** The sample courses flagged as enrolled, in order. */
  function EnrolledSamples(samples: seq<SampleCourse>): (r: seq<CourseCard>)
    ensures |r| <= |samples|
    ensures forall c :: c in r <==> EnrolledSample(samples, c)
  {
    if |samples| == 0 then []
    else
      var rest := EnrolledSamples(samples[1..]);
      assert forall c :: EnrolledSample(samples, c) <==> (samples[0].enrolled && samples[0].card == c) || EnrolledSample(samples[1..], c) by {
        forall c | EnrolledSample(samples, c) && !(samples[0].enrolled && samples[0].card == c) ensures EnrolledSample(samples[1..], c) {
          var i :| 0 <= i < |samples| && samples[i].enrolled && samples[i].card == c;
          assert samples[1..][i - 1] == samples[i];
        }
        forall c | EnrolledSample(samples[1..], c) ensures EnrolledSample(samples, c) {
          var i :| 0 <= i < |samples| - 1 && samples[1..][i].enrolled && samples[1..][i].card == c;
          assert samples[1..][i] == samples[i + 1];
        }
      }
      if samples[0].enrolled then [samples[0].card] + rest else rest
  }

  /** `filter` keeps order and repeats: the enrolled samples of a concatenation are those of each part, in place. */
  lemma {:induction false} EnrolledSamplesAppend(a: seq<SampleCourse>, b: seq<SampleCourse>)
    ensures EnrolledSamples(a + b) == EnrolledSamples(a) + EnrolledSamples(b)
  {
    if |a| == 0 {
      assert a + b == b;
    } else {
      var ab := a + b;
      assert ab[0] == a[0] && ab[1..] == a[1..] + b;
      EnrolledSamplesAppend(a[1..], b);
      if a[0].enrolled {
        assert EnrolledSamples(ab) == [a[0].card] + EnrolledSamples(ab[1..]);
        assert EnrolledSamples(a) == [a[0].card] + EnrolledSamples(a[1..]);
      } else {
        assert EnrolledSamples(ab) == EnrolledSamples(ab[1..]);
        assert EnrolledSamples(a) == EnrolledSamples(a[1..]);
      }
    }
  }

  /** A single sample contributes its card exactly when it is enrolled; with `EnrolledSamplesAppend` this fixes
      the result as the enrolled cards in catalogue order, duplicates kept. */
  lemma EnrolledSamplesOne(c: SampleCourse)
    ensures EnrolledSamples([c]) == (if c.enrolled then [c.card] else [])
  {
    assert [c][1..] == [];
  }

  /** The cards shown: one per enrollment, or the enrolled sample courses when there are no enrollments. */
  function Courses(enrollments: seq<Enrollment>, samples: seq<SampleCourse>): (r: seq<CourseCard>)
    ensures |enrollments| > 0 ==> |r| == |enrollments| && forall i :: 0 <= i < |r| ==> r[i] == ToCard(enrollments[i])
    ensures |enrollments| == 0 ==> r == EnrolledSamples(samples)
  {
    if |enrollments| > 0 then seq(|enrollments|, i requires 0 <= i < |enrollments| => ToCard(enrollments[i]))
    else EnrolledSamples(samples)
  }

  /** The sum of `progress || 0`. */
  function SumProgress(cs: seq<CourseCard>): int
  {
    if |cs| == 0 then 0 else cs[0].progress + SumProgress(cs[1..])
  }

  /** `Math.round(sum / (length || 1))`. */
  function AvgProgress(cs: seq<CourseCard>): (avg: int)
    ensures cs == [] ==> avg == 0
  {
    RoundDiv(SumProgress(cs), if |cs| == 0 then 1 else |cs|)
  }

  predicate ProgressBetween(cs: seq<CourseCard>, lo: int, hi: int)
  {
    forall i :: 0 <= i < |cs| ==> lo <= cs[i].progress <= hi
  }

  lemma {:induction false} SumProgressBetween(cs: seq<CourseCard>, lo: int, hi: int)
    requires ProgressBetween(cs, lo, hi)
    ensures |cs| * lo <= SumProgress(cs) <= |cs| * hi
  {
    if |cs| > 0 {
      SumProgressBetween(cs[1..], lo, hi);
      assert |cs| * lo == lo + (|cs| - 1) * lo;
      assert |cs| * hi == hi + (|cs| - 1) * hi;
    }
  }

  /** The average lies between the lowest and highest progress; percentages average to a percentage. */
  lemma AvgProgressBetween(cs: seq<CourseCard>, lo: int, hi: int)
    requires |cs| > 0 && ProgressBetween(cs, lo, hi)
    ensures lo <= AvgProgress(cs) <= hi
  {
    SumProgressBetween(cs, lo, hi);
    RoundDivBetween(SumProgress(cs), |cs|, lo, hi);
  }

  /** Enrollments with percentages in [0, 100] give an average in [0, 100]. */
  lemma DashboardAverageIsPercentage(enrollments: seq<Enrollment>, samples: seq<SampleCourse>)
    requires forall i :: 0 <= i < |enrollments| ==> 0 <= Coalesce(enrollments[i].progress, 0) <= 100
    requires forall i :: 0 <= i < |samples| ==> 0 <= samples[i].card.progress <= 100
    ensures 0 <= AvgProgress(Courses(enrollments, samples)) <= 100
  {
    var cs := Courses(enrollments, samples);
    if |cs| > 0 {
      assert ProgressBetween(cs, 0, 100) by {
        forall i | 0 <= i < |cs| ensures 0 <= cs[i].progress <= 100 {
          if |enrollments| == 0 {
            assert cs[i] in EnrolledSamples(samples);
            var j :| 0 <= j < |samples| && samples[j].enrolled && samples[j].card == cs[i];
          }
        }
      }
      AvgProgressBetween(cs, 0, 100);
    }
  }
}
