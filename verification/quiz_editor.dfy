/**
 * The quiz-management page's edit form: list edits on questions and their
 * options, the repair of `correctAnswerIndex` when an option is removed,
 * the total-marks computation and the form defaults when editing starts.
 */
module QuizEditor {
  import opened Js

  /** A mark as stored in the form: a number, or a value `Number()` turns into `NaN`. */
  datatype Mark = Numeric(n: int) | NotANumber

  datatype EditQuestion = EditQuestion(question: string, options: seq<string>, correctAnswerIndex: int, explanation: string, marks: Mark)

  datatype QuizForm = QuizForm(title: string, description: string, questions: seq<EditQuestion>, durationMinutes: int, isPublished: bool)

  /** The single-field edits `updateQuestion(index, field, value)` is called with. */
  datatype FieldEdit = SetText(text: string) | SetExplanation(explanation: string) | SetCorrect(index: int) | SetMarks(mark: Mark)

  /** The blank question `addQuestion` appends. */
  const BlankQuestion: EditQuestion := EditQuestion("", [], 0, "", Numeric(0))

  /** `addQuestion()`: one blank question at the end, the others untouched. */
  function AddQuestion(f: QuizForm): (r: QuizForm)
    ensures |r.questions| == |f.questions| + 1
    ensures r.questions[..|f.questions|] == f.questions
    ensures r.questions[|f.questions|].options == [] && r.questions[|f.questions|].correctAnswerIndex == 0
    ensures r.questions[|f.questions|].marks == Numeric(0)
    ensures r.title == f.title && r.description == f.description && r.durationMinutes == f.durationMinutes
    ensures r == f.(questions := r.questions) && r.questions[|f.questions|] == BlankQuestion
  {
    f.(questions := f.questions + [BlankQuestion])
  }

  /** `splice(index, 1)` for a non-negative index: removes that element when it exists. */
  function Splice<T>(s: seq<T>, index: nat): (r: seq<T>)
    ensures index < |s| ==> |r| == |s| - 1 && r[..index] == s[..index] && r[index..] == s[index + 1..]
    ensures index >= |s| ==> r == s
  {
    if index < |s| then s[..index] + s[index + 1..] else s
  }

  /** `removeQuestion(index)`: exactly that question goes, the others keep their order. */
  function RemoveQuestion(f: QuizForm, index: nat): (r: QuizForm)
    ensures index < |f.questions| ==> |r.questions| == |f.questions| - 1
    ensures index < |f.questions| ==>
              forall i :: 0 <= i < |r.questions| ==> r.questions[i] == f.questions[if i < index then i else i + 1]
    ensures index >= |f.questions| ==> r == f
    ensures r == f.(questions := r.questions)
  {
    f.(questions := Splice(f.questions, index))
  }

  /** One field of one question, written. */
  function ApplyEdit(q: EditQuestion, e: FieldEdit): EditQuestion
  {
    match e
    case SetText(t) => q.(question := t)
    case SetExplanation(x) => q.(explanation := x)
    case SetCorrect(k) => q.(correctAnswerIndex := k)
    case SetMarks(m) => q.(marks := m)
  }

  /** `updateQuestion(index, field, value)`: only that field of that question changes. */
  function UpdateQuestion(f: QuizForm, index: nat, e: FieldEdit): (r: QuizForm)
    requires index < |f.questions|
    ensures |r.questions| == |f.questions|
    ensures forall i :: 0 <= i < |f.questions| && i != index ==> r.questions[i] == f.questions[i]
    ensures r.questions[index].options == f.questions[index].options
    ensures e.SetText? ==> r.questions[index] == f.questions[index].(question := e.text)
    ensures e.SetExplanation? ==> r.questions[index] == f.questions[index].(explanation := e.explanation)
    ensures e.SetCorrect? ==> r.questions[index] == f.questions[index].(correctAnswerIndex := e.index)
    ensures e.SetMarks? ==> r.questions[index] == f.questions[index].(marks := e.mark)
    ensures r == f.(questions := r.questions)
  {
    f.(questions := f.questions[index := ApplyEdit(f.questions[index], e)])
  }

  /** `updateOption(q, o, value)`: only option `o` of question `q` changes; the option count stays. */
  function UpdateOption(f: QuizForm, q: nat, o: nat, value: string): (r: QuizForm)
    requires q < |f.questions| && o < |f.questions[q].options|
    ensures |r.questions| == |f.questions|
    ensures forall i :: 0 <= i < |f.questions| && i != q ==> r.questions[i] == f.questions[i]
    ensures |r.questions[q].options| == |f.questions[q].options|
    ensures r.questions[q].options[o] == value
    ensures forall j :: 0 <= j < |f.questions[q].options| && j != o ==> r.questions[q].options[j] == f.questions[q].options[j]
    ensures r.questions[q].correctAnswerIndex == f.questions[q].correctAnswerIndex
    ensures r == f.(questions := r.questions) && r.questions[q] == f.questions[q].(options := r.questions[q].options)
  {
    var qq := f.questions[q];
    f.(questions := f.questions[q := qq.(options := qq.options[o := value])])
  }

  /** `addOption(q)`: an empty option at the end of question `q`, nothing else changes. */
  function AddOption(f: QuizForm, q: nat): (r: QuizForm)
    requires q < |f.questions|
    ensures |r.questions| == |f.questions|
    ensures forall i :: 0 <= i < |f.questions| && i != q ==> r.questions[i] == f.questions[i]
    ensures r.questions[q].options == f.questions[q].options + [""]
    ensures r.questions[q].correctAnswerIndex == f.questions[q].correctAnswerIndex
    ensures r == f.(questions := r.questions) && r.questions[q] == f.questions[q].(options := r.questions[q].options)
  {
    var qq := f.questions[q];
    f.(questions := f.questions[q := qq.(options := qq.options + [""])])
  }

  /**
   * `removeOption(q, o)` as written: the option goes, and the correct index
   * is reset to 0 only when it no longer fits; it is not shifted.
   */
  function RemoveOption(f: QuizForm, q: nat, o: nat): (r: QuizForm)
    requires q < |f.questions|
    ensures |r.questions| == |f.questions|
    ensures forall i :: 0 <= i < |f.questions| && i != q ==> r.questions[i] == f.questions[i]
    ensures r.questions[q].options == Splice(f.questions[q].options, o)
    ensures var k := f.questions[q].correctAnswerIndex;
            r.questions[q].correctAnswerIndex == (if k >= |r.questions[q].options| then 0 else k)
    ensures r == f.(questions := r.questions)
    ensures r.questions[q] == f.questions[q].(options := r.questions[q].options, correctAnswerIndex := r.questions[q].correctAnswerIndex)
  {
    var qq := f.questions[q];
    var options := Splice(qq.options, o);
    var correct := if qq.correctAnswerIndex >= |options| then 0 else qq.correctAnswerIndex;
    f.(questions := f.questions[q := qq.(options := options, correctAnswerIndex := correct)])
  }

  /**
   * Removing an option before the correct one makes a different option the
   * correct answer: with options a, b, c, d and "c" correct, removing "a"
   * leaves "d" marked correct.
   */
  lemma RemoveOptionChangesCorrectAnswer()
    ensures var f := QuizForm("", "", [EditQuestion("", ["a", "b", "c", "d"], 2, "", Numeric(1))], 30, false);
            var r := RemoveOption(f, 0, 0);
            f.questions[0].options[2] == "c" &&
            r.questions[0].options[r.questions[0].correctAnswerIndex] == "d"
  {
  }

  /**
   * `removeOption` with the correct index shifted: an option removed before
   * the correct one moves the index down by one; removing the correct option
   * itself falls back to 0, as the code does when the index no longer fits.
   */
  function RemoveOptionShifted(f: QuizForm, q: nat, o: nat): (r: QuizForm)
    requires q < |f.questions|
    ensures |r.questions| == |f.questions|
    ensures forall i :: 0 <= i < |f.questions| && i != q ==> r.questions[i] == f.questions[i]
    ensures r.questions[q].options == Splice(f.questions[q].options, o)
    ensures var old_ := f.questions[q]; var new_ := r.questions[q];
            0 <= old_.correctAnswerIndex < |old_.options| && o != old_.correctAnswerIndex ==>
              0 <= new_.correctAnswerIndex < |new_.options| &&
              new_.options[new_.correctAnswerIndex] == old_.options[old_.correctAnswerIndex]
    ensures o < |f.questions[q].options| && o == f.questions[q].correctAnswerIndex ==> r.questions[q].correctAnswerIndex == 0
    ensures var k := f.questions[q].correctAnswerIndex;
            o >= |f.questions[q].options| ==> r.questions[q].correctAnswerIndex == (if k >= |f.questions[q].options| then 0 else k)
    ensures r == f.(questions := r.questions)
    ensures r.questions[q] == f.questions[q].(options := r.questions[q].options, correctAnswerIndex := r.questions[q].correctAnswerIndex)
  {
    var qq := f.questions[q];
    var options := Splice(qq.options, o);
    var k := qq.correctAnswerIndex;
    var shifted := if o < |qq.options| && o < k then k - 1 else k;
    var correct := if shifted >= |options| || (o < |qq.options| && o == k) then 0 else shifted;
    f.(questions := f.questions[q := qq.(options := options, correctAnswerIndex := correct)])
  }

  /** `Number(q.marks) || 0`. */
  function MarkValue(m: Mark): int
  {
    match m
    case Numeric(n) => n
    case NotANumber => 0
  }

  /** `calculateTotalMarks(questions)`. */
  function TotalMarks(qs: seq<EditQuestion>): int
  {
    if |qs| == 0 then 0 else TotalMarks(qs[..|qs| - 1]) + MarkValue(qs[|qs| - 1].marks)
  }

  /** Total marks split over a concatenation. */
  lemma {:induction false} TotalMarksAppend(a: seq<EditQuestion>, b: seq<EditQuestion>)
    ensures TotalMarks(a + b) == TotalMarks(a) + TotalMarks(b)
    decreases |b|
  {
    if |b| > 0 {
      assert (a + b)[..|a + b| - 1] == a + b[..|b| - 1];
      TotalMarksAppend(a, b[..|b| - 1]);
    } else {
      assert a + b == a;
    }
  }

  /** Non-numeric marks count as 0, and marks of non-negative numbers give a non-negative total. */
  lemma {:induction false} TotalMarksNonNegative(qs: seq<EditQuestion>)
    requires forall i :: 0 <= i < |qs| ==> qs[i].marks.NotANumber? || qs[i].marks.n >= 0
    ensures TotalMarks(qs) >= 0
  {
    if |qs| > 0 {
      TotalMarksNonNegative(qs[..|qs| - 1]);
    }
  }

  /** Adding a blank question leaves the total unchanged; removing one subtracts its marks. */
  lemma TotalMarksAfterEdits(f: QuizForm, index: nat)
    ensures TotalMarks(AddQuestion(f).questions) == TotalMarks(f.questions)
    ensures index < |f.questions| ==>
              TotalMarks(RemoveQuestion(f, index).questions) == TotalMarks(f.questions) - MarkValue(f.questions[index].marks)
  {
    TotalMarksAppend(f.questions, [BlankQuestion]);
    assert TotalMarks([BlankQuestion]) == TotalMarks([]) + 0;
    if index < |f.questions| {
      var qs := f.questions;
      assert qs == qs[..index] + [qs[index]] + qs[index + 1..];
      TotalMarksAppend(qs[..index] + [qs[index]], qs[index + 1..]);
      TotalMarksAppend(qs[..index], [qs[index]]);
      TotalMarksAppend(qs[..index], qs[index + 1..]);
      assert TotalMarks([qs[index]]) == TotalMarks([]) + MarkValue(qs[index].marks);
    }
  }

  /** Replacing one question changes the total by the difference of its marks. */
  lemma TotalMarksAt(qs: seq<EditQuestion>, i: nat, x: EditQuestion)
    requires i < |qs|
    ensures TotalMarks(qs[i := x]) == TotalMarks(qs) - MarkValue(qs[i].marks) + MarkValue(x.marks)
  {
    var ys := qs[i := x];
    assert qs == qs[..i] + [qs[i]] + qs[i + 1..];
    assert ys == qs[..i] + [x] + qs[i + 1..];
    TotalMarksAppend(qs[..i] + [qs[i]], qs[i + 1..]);
    TotalMarksAppend(qs[..i], [qs[i]]);
    TotalMarksAppend(qs[..i] + [x], qs[i + 1..]);
    TotalMarksAppend(qs[..i], [x]);
    assert TotalMarks([qs[i]]) == TotalMarks([]) + MarkValue(qs[i].marks);
    assert TotalMarks([x]) == TotalMarks([]) + MarkValue(x.marks);
  }

  /** The edit that writes back the current value of the field `e` writes. */
  function Current(q: EditQuestion, e: FieldEdit): FieldEdit
  {
    match e
    case SetText(_) => SetText(q.question)
    case SetExplanation(_) => SetExplanation(q.explanation)
    case SetCorrect(_) => SetCorrect(q.correctAnswerIndex)
    case SetMarks(_) => SetMarks(q.marks)
  }

  /** A field edit is undone by writing the old value back, and only a marks edit moves the total, by the
      difference of the marks. */
  lemma UpdateQuestionUndo(f: QuizForm, index: nat, e: FieldEdit)
    requires index < |f.questions|
    ensures UpdateQuestion(UpdateQuestion(f, index, e), index, Current(f.questions[index], e)) == f
    ensures TotalMarks(UpdateQuestion(f, index, e).questions) ==
            TotalMarks(f.questions) + (if e.SetMarks? then MarkValue(e.mark) - MarkValue(f.questions[index].marks) else 0)
  {
    var r := UpdateQuestion(f, index, e);
    var back := UpdateQuestion(r, index, Current(f.questions[index], e));
    assert back.questions == f.questions;
    TotalMarksAt(f.questions, index, r.questions[index]);
    assert r.questions == f.questions[index := r.questions[index]];
  }

  /** Writing an option back to its old text undoes the edit, and option edits never move the total. */
  lemma UpdateOptionUndo(f: QuizForm, q: nat, o: nat, value: string)
    requires q < |f.questions| && o < |f.questions[q].options|
    ensures UpdateOption(UpdateOption(f, q, o, value), q, o, f.questions[q].options[o]) == f
    ensures TotalMarks(UpdateOption(f, q, o, value).questions) == TotalMarks(f.questions)
  {
    var r := UpdateOption(f, q, o, value);
    var back := UpdateOption(r, q, o, f.questions[q].options[o]);
    assert back.questions[q].options == f.questions[q].options;
    assert back.questions == f.questions;
    TotalMarksAt(f.questions, q, r.questions[q]);
    assert r.questions == f.questions[q := r.questions[q]];
  }

  /** Removing the option `addOption` just appended gives the form back, under either index rule, as long
      as the correct index pointed at an existing option; the total never moves. */
  lemma AddThenRemoveOption(f: QuizForm, q: nat)
    requires q < |f.questions|
    ensures var n := |f.questions[q].options|;
            f.questions[q].correctAnswerIndex < n ==>
              RemoveOption(AddOption(f, q), q, n) == f && RemoveOptionShifted(AddOption(f, q), q, n) == f
    ensures TotalMarks(AddOption(f, q).questions) == TotalMarks(f.questions)
  {
    var n := |f.questions[q].options|;
    var a := AddOption(f, q);
    assert Splice(a.questions[q].options, n) == f.questions[q].options;
    if f.questions[q].correctAnswerIndex < n {
      assert RemoveOption(a, q, n).questions == f.questions;
      assert RemoveOptionShifted(a, q, n).questions == f.questions;
    }
    TotalMarksAt(f.questions, q, a.questions[q]);
    assert a.questions == f.questions[q := a.questions[q]];
  }

  /** The object sent by `handleSubmit`. */
  datatype QuizPayload = QuizPayload(title: string, description: string, questions: seq<EditQuestion>, durationMinutes: int, totalMarks: int, isPublished: bool)

  /** `handleSubmit`: the form's fields plus `totalMarks`, recomputed from the questions. */
  function SubmitPayload(f: QuizForm): (p: QuizPayload)
    ensures p.totalMarks == TotalMarks(f.questions)
    ensures p.questions == f.questions && p.title == f.title && p.description == f.description
    ensures p.durationMinutes == f.durationMinutes && p.isPublished == f.isPublished
  {
    QuizPayload(f.title, f.description, f.questions, f.durationMinutes, TotalMarks(f.questions), f.isPublished)
  }

  /** A quiz as listed by the server, with every field optional. */
  datatype StoredQuiz = StoredQuiz(title: Option<string>, description: Option<string>, questions: Option<seq<EditQuestion>>,
                                   durationMinutes: Option<int>, isPublished: Option<bool>)

  /** The form `useEffect` fills in when editing starts: falsy fields take their defaults. */
  function EditForm(q: StoredQuiz): (f: QuizForm)
    ensures f.title == OrElse(q.title, "") && f.description == OrElse(q.description, "")
    ensures q.questions.None? ==> f.questions == []
    ensures q.questions.Some? ==> f.questions == q.questions.value
    ensures f.durationMinutes == (if q.durationMinutes.Some? && q.durationMinutes.value != 0 then q.durationMinutes.value else 30)
    ensures f.isPublished <==> q.isPublished == Some(true)
  {
    QuizForm(OrElse(q.title, ""), OrElse(q.description, ""),
             if q.questions.Some? then q.questions.value else [],
             OrNum(q.durationMinutes, 30),
             q.isPublished == Some(true))
  }

  /** A quiz with nothing set opens as an empty 30-minute unpublished form. */
  lemma EmptyQuizDefaults()
    ensures EditForm(StoredQuiz(None, None, None, None, None)) == QuizForm("", "", [], 30, false)
  {
  }

  /** The quiz as the server stores a submitted payload: every form field present. */
  function Stored(p: QuizPayload): StoredQuiz
  {
    StoredQuiz(Some(p.title), Some(p.description), Some(p.questions), Some(p.durationMinutes), Some(p.isPublished))
  }

  /** Saving a form and editing the saved quiz reopens the same form, unless its duration was 0, which
      reopens as the 30-minute default. */
  lemma SaveAndReopen(f: QuizForm)
    ensures f.durationMinutes != 0 ==> EditForm(Stored(SubmitPayload(f))) == f
    ensures f.durationMinutes == 0 ==> EditForm(Stored(SubmitPayload(f))) == f.(durationMinutes := 30)
  {
  }
}
