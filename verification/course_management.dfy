/**
 * The admin course-management page's derived data: the distinct
 * categories and tags offered as filters, the summary statistics, and
 * the course form's custom-tag input.
 */
module CourseManagement {
  import opened Js
  import opened Text
  import CourseFilters

  /** A course as listed by the server; absent fields are `None`. */
  datatype Course = Course(id: string, title: string, category: Option<string>, tags: Option<seq<string>>,
                           isPublished: bool, enrollment: Option<int>, price: Option<int>)

  /** `[...new Set(xs.filter(Boolean))]`: the non-empty values, each once, in order of first occurrence. */
  function Distinct(xs: seq<string>): (r: seq<string>)
    ensures CourseFilters.NoDup(r)
    ensures forall x :: x in r <==> x in xs && x != ""
    ensures |r| <= |xs|
  {
    if |xs| == 0 then []
    else
      var r := Distinct(xs[..|xs| - 1]);
      var x := xs[|xs| - 1];
      assert xs == xs[..|xs| - 1] + [x];
      if x == "" || x in r then r
      else
        var r' := r + [x];
        assert forall i :: 0 <= i < |r| ==> r'[i] == r[i] && r[i] != x;
        r'
  }

  /** A list that already has no blanks and no repeats passes through unchanged, order included. */
  lemma {:induction false} DistinctIdentity(xs: seq<string>)
    requires CourseFilters.NoDup(xs) && "" !in xs
    ensures Distinct(xs) == xs
  {
    if |xs| > 0 {
      var init := xs[..|xs| - 1];
      DropLast(xs);
      DistinctIdentity(init);
    }
  }

  /** Dropping the last value of a list without repeats or blanks leaves such a list, without that value. */
  lemma DropLast(xs: seq<string>)
    requires |xs| > 0 && CourseFilters.NoDup(xs) && "" !in xs
    ensures var init := xs[..|xs| - 1];
      CourseFilters.NoDup(init) && "" !in init && xs[|xs| - 1] !in init && init + [xs[|xs| - 1]] == xs
  {
    var init := xs[..|xs| - 1];
    assert forall i :: 0 <= i < |init| ==> init[i] == xs[i];
  }

  /** `r` lists values in order of first occurrence in `xs`: wherever a later value of `r` occurs in
      `xs`, every earlier value of `r` has already occurred before it. */
  predicate FirstOccurrenceOrder(xs: seq<string>, r: seq<string>)
  {
    forall i, j, k :: 0 <= i < j < |r| && 0 <= k < |xs| && xs[k] == r[j] ==> r[i] in xs[..k]
  }

  /** The values come in order of first occurrence. */
  lemma {:induction false} DistinctFirstOccurrence(xs: seq<string>)
    ensures FirstOccurrenceOrder(xs, Distinct(xs))
  {
    if |xs| > 0 {
      var init := xs[..|xs| - 1];
      var x := xs[|xs| - 1];
      var ri := Distinct(init);
      var r := Distinct(xs);
      DistinctFirstOccurrence(init);
      assert xs == init + [x];
      assert r == ri || (r == ri + [x] && x !in init);
      forall i, j, k | 0 <= i < j < |r| && 0 <= k < |xs| && xs[k] == r[j] ensures r[i] in xs[..k] {
        if k < |init| {
          assert xs[..k] == init[..k];
          assert init[k] in init;
          assert j < |ri|;
          assert FirstOccurrenceOrder(init, ri);
          assert init[k] == ri[j] && r[i] == ri[i];
        } else {
          assert xs[..k] == init;
          assert r[i] == ri[i];
        }
      }
    }
  }

  /** Taking distinct values twice is taking them once. */
  lemma DistinctIdempotent(xs: seq<string>)
    ensures Distinct(Distinct(xs)) == Distinct(xs)
  {
    DistinctIdentity(Distinct(xs));
  }

  /** `course.category`, with an absent one treated as the falsy `""`. */
  function CategoryOf(c: Course): string
  {
    OrElse(c.category, "")
  }

  /** Every course's category, in listing order. */
  function AllCategories(courses: seq<Course>): (r: seq<string>)
    ensures |r| == |courses| && forall i :: 0 <= i < |courses| ==> r[i] == CategoryOf(courses[i])
  {
    seq(|courses|, i requires 0 <= i < |courses| => CategoryOf(courses[i]))
  }

  /** The category filter's options. */
  function Categories(courses: seq<Course>): (r: seq<string>)
    ensures CourseFilters.NoDup(r)
    ensures forall x :: x in r <==> x != "" && exists i :: 0 <= i < |courses| && CategoryOf(courses[i]) == x
  {
    var all := AllCategories(courses);
    var r := Distinct(all);
    assert forall x :: x in all <==> exists i :: 0 <= i < |courses| && CategoryOf(courses[i]) == x by {
      forall x | x in all ensures exists i :: 0 <= i < |courses| && CategoryOf(courses[i]) == x {
        var i :| 0 <= i < |all| && all[i] == x;
        assert CategoryOf(courses[i]) == x;
      }
    }
    r
  }

  /** `course.tags || []`. */
  function TagsOf(c: Course): seq<string>
  {
    if c.tags.Some? then c.tags.value else []
  }

  /** Some course carries tag `t`. */
  predicate HasTag(courses: seq<Course>, t: string)
  {
    exists i :: 0 <= i < |courses| && t in TagsOf(courses[i])
  }

  /** `courses.flatMap(course => course.tags || [])`. */
  function FlatTags(courses: seq<Course>): (r: seq<string>)
    ensures forall t :: t in r <==> HasTag(courses, t)
  {
    if |courses| == 0 then []
    else
      var rest := FlatTags(courses[1..]);
      assert forall t :: HasTag(courses, t) <==> t in TagsOf(courses[0]) || HasTag(courses[1..], t) by {
        forall t | HasTag(courses, t) && t !in TagsOf(courses[0]) ensures HasTag(courses[1..], t) {
          var i :| 0 <= i < |courses| && t in TagsOf(courses[i]);
          assert courses[1..][i - 1] == courses[i];
        }
        forall t | HasTag(courses[1..], t) ensures HasTag(courses, t) {
          var i :| 0 <= i < |courses| - 1 && t in TagsOf(courses[1..][i]);
          assert courses[1..][i] == courses[i + 1];
        }
      }
      TagsOf(courses[0]) + rest
  }

  /** The tag filter's options: every non-empty tag of any listed course, once. */
  function AllTags(courses: seq<Course>): (r: seq<string>)
    ensures CourseFilters.NoDup(r)
    ensures forall t :: t in r <==> t != "" && HasTag(courses, t)
  {
    Distinct(FlatTags(courses))
  }

  /** The four summary cards. */
  datatype Stats = Stats(total: int, published: nat, draft: nat, totalEnrollment: int, totalRevenue: int)

  function CountPublished(courses: seq<Course>): nat
  {
    if |courses| == 0 then 0 else (if courses[0].isPublished then 1 else 0) + CountPublished(courses[1..])
  }

  function CountDraft(courses: seq<Course>): nat
  {
    if |courses| == 0 then 0 else (if !courses[0].isPublished then 1 else 0) + CountDraft(courses[1..])
  }

  function SumEnrollment(courses: seq<Course>): int
  {
    if |courses| == 0 then 0 else OrNum(courses[0].enrollment, 0) + SumEnrollment(courses[1..])
  }

  function SumPrice(courses: seq<Course>): int
  {
    if |courses| == 0 then 0 else OrNum(courses[0].price, 0) + SumPrice(courses[1..])
  }

  /** The statistics over the page of courses on screen; `total` is the server's count. */
  function ComputeStats(courses: seq<Course>, meta: Option<CourseFilters.Meta>): (s: Stats)
    ensures s.total == CourseFilters.TotalCourses(meta)
    ensures s.published + s.draft == |courses|
  {
    PublishedPlusDraft(courses);
    Stats(CourseFilters.TotalCourses(meta), CountPublished(courses), CountDraft(courses),
          SumEnrollment(courses), SumPrice(courses))
  }

  /** Every course is either published or a draft. */
  lemma {:induction false} PublishedPlusDraft(courses: seq<Course>)
    ensures CountPublished(courses) + CountDraft(courses) == |courses|
  {
    if |courses| > 0 {
      PublishedPlusDraft(courses[1..]);
    }
  }

  /** One more course adds exactly its own contribution to each card. */
  lemma {:induction false} StatsAppend(courses: seq<Course>, c: Course, meta: Option<CourseFilters.Meta>)
    ensures var before := ComputeStats(courses, meta);
      var after := ComputeStats(courses + [c], meta);
      && after.published == before.published + (if c.isPublished then 1 else 0)
      && after.draft == before.draft + (if c.isPublished then 0 else 1)
      && after.totalEnrollment == before.totalEnrollment + OrNum(c.enrollment, 0)
      && after.totalRevenue == before.totalRevenue + OrNum(c.price, 0)
  {
    if |courses| == 0 {
      assert courses + [c] == [c];
      assert [c][1..] == [];
    } else {
      assert (courses + [c])[1..] == courses[1..] + [c];
      StatsAppend(courses[1..], c, meta);
    }
  }

  /** Keys that commit a custom tag. */
  predicate CommitKey(key: string)
  {
    key == "Enter" || key == ","
  }

  /** The custom-tag input: on Enter or comma the trimmed text is added unless empty or already chosen;
      the input is cleared only when a tag was added. */
  function AddCustomTag(tags: seq<string>, key: string, input: string): (r: (seq<string>, bool))
    ensures r.1 <==> CommitKey(key) && Trim(input) != "" && Trim(input) !in tags
    ensures r.1 ==> r.0 == tags + [Trim(input)]
    ensures !r.1 ==> r.0 == tags
  {
    var value := Trim(input);
    if CommitKey(key) && value != "" && value !in tags then (tags + [value], true) else (tags, false)
  }

  /** Custom tags never introduce duplicates, blanks or surrounding white space. */
  lemma CustomTagKeepsTagsClean(tags: seq<string>, key: string, input: string)
    requires CourseFilters.NoDup(tags)
    requires forall i :: 0 <= i < |tags| ==> tags[i] != "" && Trim(tags[i]) == tags[i]
    ensures var r := AddCustomTag(tags, key, input).0;
      CourseFilters.NoDup(r) && forall i :: 0 <= i < |r| ==> r[i] != "" && Trim(r[i]) == r[i]
  {
    var value := Trim(input);
    TrimIdempotent(input);
    if AddCustomTag(tags, key, input).1 {
      var r := tags + [value];
      forall i, j | 0 <= i < j < |r| ensures r[i] != r[j] {
        if j == |tags| { assert r[i] == tags[i]; }
      }
    }
  }
}
