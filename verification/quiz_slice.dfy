/** The quiz-loading slice: the quiz fetched last, a loading flag and the last error. */
module QuizSlice {
  import opened Js

  /** `None` is the slice's own `null` (nothing stored yet); whatever an action carries is stored as
      `Some`, so a dispatched `null` payload is `Some(JNull)`. Both are falsy to the views. */
  datatype QuizState = QuizState(currentQuiz: Option<Json>, loading: bool, error: Option<Json>)

  const Initial: QuizState := QuizState(None, false, None)

  /** `setQuizLoading()`: loading, error cleared, quiz kept. */
  function SetQuizLoading(s: QuizState): (r: QuizState)
    ensures r.loading && r.error.None? && r.currentQuiz == s.currentQuiz
  {
    s.(loading := true, error := None)
  }

  /** `setQuizSuccess(quiz)`: not loading, quiz stored; a previous error is left in place. */
  function SetQuizSuccess(s: QuizState, quiz: Json): (r: QuizState)
    ensures !r.loading && r.currentQuiz == Some(quiz) && r.error == s.error
  {
    s.(loading := false, currentQuiz := Some(quiz))
  }

  /** `setQuizError(err)`: not loading, error stored, quiz kept. */
  function SetQuizError(s: QuizState, err: Json): (r: QuizState)
    ensures !r.loading && r.error == Some(err) && r.currentQuiz == s.currentQuiz
  {
    s.(loading := false, error := Some(err))
  }

  /** `clearQuiz()`: back to the initial state. */
  function ClearQuiz(s: QuizState): (r: QuizState)
    ensures r.currentQuiz.None? && !r.loading && r.error.None?
  {
    Initial
  }

  /**
   * Because success does not clear the error, a load that failed and then
   * succeeded shows the quiz and the stale error together, unless a new
   * `setQuizLoading` came in between.
   */
  lemma StaleErrorAfterSuccess(s: QuizState, err: Json, quiz: Json)
    ensures var r := SetQuizSuccess(SetQuizError(s, err), quiz);
            r.currentQuiz == Some(quiz) && r.error == Some(err)
    ensures SetQuizSuccess(SetQuizLoading(SetQuizError(s, err)), quiz).error.None?
  {
  }
}
