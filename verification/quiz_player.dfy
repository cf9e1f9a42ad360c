/**
 * The quiz-taking component: navigation between questions, answer
 * selection keyed by question id, submission, scoring and the `mm:ss`
 * timer display. The one-second timer is a `Tick` the caller applies.
 */
module QuizPlayer {
  import opened Text

  datatype Question = Question(id: string, text: string, options: seq<string>, correctAnswerIndex: int, marks: int)

  /** Component state; `answers` maps a question id to the chosen option index. */
  datatype Player = Player(current: int, answers: map<string, int>, submitted: bool, reviewMode: bool, timeSpent: nat)

  const Start: Player := Player(0, map[], false, false, 0)

  /** The ids of the questions of a quiz. */
  function Ids(quiz: seq<Question>): (ids: set<string>)
    ensures forall i :: 0 <= i < |quiz| ==> quiz[i].id in ids
    ensures forall x :: x in ids ==> exists i :: 0 <= i < |quiz| && quiz[i].id == x
  {
    set i | 0 <= i < |quiz| :: quiz[i].id
  }

  /** A reachable state of a rendered (non-empty) quiz: the current index is a question, answers are for its questions. */
  predicate Valid(quiz: seq<Question>, p: Player)
  {
    0 <= p.current < |quiz| && p.answers.Keys <= Ids(quiz)
  }

  /** `handleAnswerSelect(k)`: before submission, record `k` for the current question, replacing an earlier choice. */
  function SelectAnswer(quiz: seq<Question>, p: Player, k: int): (r: Player)
    requires 0 <= p.current < |quiz|
    ensures p.submitted ==> r == p
    ensures !p.submitted ==> r.answers.Keys == p.answers.Keys + {quiz[p.current].id}
    ensures !p.submitted ==> r.answers[quiz[p.current].id] == k
    ensures forall x :: x in p.answers && x != quiz[p.current].id ==> x in r.answers && r.answers[x] == p.answers[x]
    ensures r.current == p.current && r.submitted == p.submitted && r.reviewMode == p.reviewMode && r.timeSpent == p.timeSpent
    ensures Valid(quiz, p) ==> Valid(quiz, r)
  {
    if p.submitted then p else p.(answers := p.answers[quiz[p.current].id := k])
  }

  /** `handleNext()`: move on unless at the last question. */
  function Next(quiz: seq<Question>, p: Player): (r: Player)
    ensures p.current < |quiz| - 1 ==> r.current == p.current + 1
    ensures p.current >= |quiz| - 1 ==> r.current == p.current
    ensures r.answers == p.answers && r.submitted == p.submitted
    ensures Valid(quiz, p) ==> Valid(quiz, r)
  {
    if p.current < |quiz| - 1 then p.(current := p.current + 1) else p
  }

  /** `handlePrevious()`: move back unless at the first question. */
  function Previous(quiz: seq<Question>, p: Player): (r: Player)
    ensures p.current > 0 ==> r.current == p.current - 1
    ensures p.current <= 0 ==> r.current == p.current
    ensures r.answers == p.answers && r.submitted == p.submitted
    ensures Valid(quiz, p) ==> Valid(quiz, r)
  {
    if p.current > 0 then p.(current := p.current - 1) else p
  }

  /** A click on the dot of question `index` (the dots are drawn one per question). */
  function JumpTo(quiz: seq<Question>, p: Player, index: int): (r: Player)
    requires 0 <= index < |quiz|
    ensures r.current == index && r.answers == p.answers
    ensures Valid(quiz, p) ==> Valid(quiz, r)
  {
    p.(current := index)
  }

  /** One second of the timer, which runs only until submission. */
  function Tick(p: Player): (r: Player)
    ensures !p.submitted ==> r.timeSpent == p.timeSpent + 1
    ensures p.submitted ==> r == p
    ensures r.answers == p.answers && r.current == p.current
  {
    if p.submitted then p else p.(timeSpent := p.timeSpent + 1)
  }

  /** `quiz.reduce((sum, q) => sum + q.marks, 0)`. */
  function TotalMarks(quiz: seq<Question>): int
  {
    if |quiz| == 0 then 0 else TotalMarks(quiz[..|quiz| - 1]) + quiz[|quiz| - 1].marks
  }

  /** Question `q` was answered with its correct option. */
  predicate AnsweredCorrectly(answers: map<string, int>, q: Question)
  {
    q.id in answers && answers[q.id] == q.correctAnswerIndex
  }

  /** `calculateScore()`: the marks of every question whose recorded answer is its correct index. */
  function Score(quiz: seq<Question>, answers: map<string, int>): int
  {
    if |quiz| == 0 then 0
    else Score(quiz[..|quiz| - 1], answers) + (if AnsweredCorrectly(answers, quiz[|quiz| - 1]) then quiz[|quiz| - 1].marks else 0)
  }

  /** The questions answered correctly, in quiz order. */
  function CorrectOnes(quiz: seq<Question>, answers: map<string, int>): (r: seq<Question>)
    ensures forall q :: q in r <==> q in quiz && AnsweredCorrectly(answers, q)
  {
    if |quiz| == 0 then []
    else CorrectOnes(quiz[..|quiz| - 1], answers) + (if AnsweredCorrectly(answers, quiz[|quiz| - 1]) then [quiz[|quiz| - 1]] else [])
  }

  /** The correct answers keep the quiz order: those of a concatenation are those of each part, in place. */
  lemma {:induction false} CorrectOnesAppend(a: seq<Question>, b: seq<Question>, answers: map<string, int>)
    ensures CorrectOnes(a + b, answers) == CorrectOnes(a, answers) + CorrectOnes(b, answers)
  {
    if |b| == 0 {
      assert a + b == a;
    } else {
      var ab := a + b;
      var init := b[..|b| - 1];
      assert ab[..|ab| - 1] == a + init && ab[|ab| - 1] == b[|b| - 1];
      CorrectOnesAppend(a, init, answers);
    }
  }

  /** A single question is listed exactly when it was answered correctly; with `CorrectOnesAppend` this fixes
      the list as the correctly answered questions in quiz order. */
  lemma CorrectOnesOne(q: Question, answers: map<string, int>)
    ensures CorrectOnes([q], answers) == (if AnsweredCorrectly(answers, q) then [q] else [])
  {
    assert [q][..0] == [];
  }

  /** The score is the total marks of the correctly answered questions. */
  lemma {:induction false} ScoreIsMarksOfCorrect(quiz: seq<Question>, answers: map<string, int>)
    ensures Score(quiz, answers) == TotalMarks(CorrectOnes(quiz, answers))
  {
    if |quiz| > 0 {
      var init := quiz[..|quiz| - 1];
      var last := quiz[|quiz| - 1];
      ScoreIsMarksOfCorrect(init, answers);
      var c := CorrectOnes(init, answers);
      if AnsweredCorrectly(answers, last) {
        assert (c + [last])[..|c + [last]| - 1] == c;
      } else {
        assert CorrectOnes(quiz, answers) == c + [];
        assert c + [] == c;
      }
    }
  }

  /** With non-negative marks, the score lies between 0 and the total marks. */
  lemma {:induction false} ScoreBounds(quiz: seq<Question>, answers: map<string, int>)
    requires forall i :: 0 <= i < |quiz| ==> quiz[i].marks >= 0
    ensures 0 <= Score(quiz, answers) <= TotalMarks(quiz)
  {
    if |quiz| > 0 {
      ScoreBounds(quiz[..|quiz| - 1], answers);
    }
  }

  /** All questions answered correctly give the total; no answers give 0. */
  lemma {:induction false} ScoreExtremes(quiz: seq<Question>, answers: map<string, int>)
    ensures (forall i :: 0 <= i < |quiz| ==> AnsweredCorrectly(answers, quiz[i])) ==> Score(quiz, answers) == TotalMarks(quiz)
    ensures Score(quiz, map[]) == 0
  {
    if |quiz| > 0 {
      ScoreExtremes(quiz[..|quiz| - 1], answers);
    }
  }

  /** The outcome of `handleSubmit()`: the new state and the numbers it reports. */
  datatype Submission = Submission(player: Player, score: int, totalMarks: int, time: string)

  /** `handleSubmit()`: mark submitted and enter review mode; report score, total and elapsed time. */
  function Submit(quiz: seq<Question>, p: Player): (r: Submission)
    ensures r.player.submitted && r.player.reviewMode
    ensures r.player.answers == p.answers && r.player.current == p.current && r.player.timeSpent == p.timeSpent
    ensures r.score == TotalMarks(CorrectOnes(quiz, p.answers)) && r.totalMarks == TotalMarks(quiz)
    ensures (forall i :: 0 <= i < |quiz| ==> quiz[i].marks >= 0) ==> 0 <= r.score <= r.totalMarks
    ensures ParseTime(r.time) == p.timeSpent
  {
    ScoreIsMarksOfCorrect(quiz, p.answers);
    FormatParseRoundTrip(p.timeSpent);
    var r := Submission(p.(submitted := true, reviewMode := true), Score(quiz, p.answers), TotalMarks(quiz), FormatTime(p.timeSpent));
    if forall i :: 0 <= i < |quiz| ==> quiz[i].marks >= 0 then
      ScoreBounds(quiz, p.answers);
      r
    else
      r
  }

  /** `Object.keys(selectedAnswers).length`. */
  function AnsweredCount(p: Player): nat
  {
    |p.answers.Keys|
  }

  /** Answers are never removed, so the answered count never goes down when an answer is selected. */
  lemma AnsweredCountMonotone(quiz: seq<Question>, p: Player, k: int)
    requires 0 <= p.current < |quiz|
    ensures AnsweredCount(p) <= AnsweredCount(SelectAnswer(quiz, p, k)) <= AnsweredCount(p) + 1
  {
    var r := SelectAnswer(quiz, p, k);
    if !p.submitted {
      assert r.answers.Keys == p.answers.Keys + {quiz[p.current].id};
      if quiz[p.current].id in p.answers.Keys {
        assert r.answers.Keys == p.answers.Keys;
      } else {
        assert |r.answers.Keys| == |p.answers.Keys| + 1;
      }
    }
  }

  /** There are no more distinct ids than questions. */
  lemma {:induction false} IdsBound(quiz: seq<Question>)
    ensures |Ids(quiz)| <= |quiz|
  {
    if |quiz| > 0 {
      var init := quiz[..|quiz| - 1];
      IdsBound(init);
      assert Ids(quiz) == Ids(init) + {quiz[|quiz| - 1].id} by {
        forall x | x in Ids(quiz) ensures x in Ids(init) + {quiz[|quiz| - 1].id} {
          var i :| 0 <= i < |quiz| && quiz[i].id == x;
          if i < |quiz| - 1 { assert init[i] == quiz[i]; }
        }
      }
    }
  }

  /** In a reachable state the answered count never exceeds the number of questions. */
  lemma AnsweredCountBound(quiz: seq<Question>, p: Player)
    requires Valid(quiz, p)
    ensures AnsweredCount(p) <= |quiz|
  {
    IdsBound(quiz);
    assert |p.answers.Keys| <= |Ids(quiz)| by {
      SubsetCardinality(p.answers.Keys, Ids(quiz));
    }
  }

  lemma SubsetCardinality<T>(a: set<T>, b: set<T>)
    requires a <= b
    ensures |a| <= |b|
  {
    assert b == a + (b - a);
  }

  /** `formatTime(seconds)`: zero-padded minutes, a colon, zero-padded seconds. */
  function FormatTime(seconds: nat): (r: string)
    ensures |r| >= 5 && r[|r| - 3] == ':'
    ensures AllDigits(r[..|r| - 3]) && AllDigits(r[|r| - 2..])
    ensures r[|r| - 2..] == PadStart2(NatToString(seconds % 60))
    ensures r[..|r| - 3] == PadStart2(NatToString(seconds / 60))
  {
    var mm := PadStart2(NatToString(seconds / 60));
    var ss := PadStart2(NatToString(seconds % 60));
    PadStart2Digits(NatToString(seconds / 60));
    PadStart2Digits(NatToString(seconds % 60));
    assert |ss| == 2;
    var r := mm + ":" + ss;
    assert r[..|r| - 3] == mm;
    assert r[|r| - 2..] == ss;
    r
  }

  /** Reads an `mm:ss` display back: minutes before the colon, two digits of seconds after it. */
  function ParseTime(t: string): nat
  {
    if |t| < 3 then 0 else 60 * ParseNat(t[..|t| - 3]) + ParseNat(t[|t| - 2..])
  }

  /** The display denotes exactly the elapsed seconds: minutes are `s / 60`, seconds `s % 60`. */
  lemma FormatParseRoundTrip(s: nat)
    ensures ParseTime(FormatTime(s)) == s
    ensures ParseNat(FormatTime(s)[|FormatTime(s)| - 2..]) == s % 60 < 60
  {
    ParsePadStart2(NatToString(s / 60));
    ParseNatToString(s / 60);
    ParsePadStart2(NatToString(s % 60));
    ParseNatToString(s % 60);
  }
}
