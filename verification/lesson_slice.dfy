/** The lesson-player slice: which lesson is open, whether it plays, its progress and completion. */
module LessonSlice {
  import opened Js

  datatype LessonState = LessonState(currentLessonId: Option<string>, isPlaying: bool, progress: int, isCompleted: bool)

  const Initial: LessonState := LessonState(None, false, 0, false)

  /** A lesson is never both playing and completed. */
  predicate Valid(s: LessonState)
  {
    !(s.isPlaying && s.isCompleted)
  }

  /** `startLesson(id)`: open `id` and play it from the start. */
  function StartLesson(s: LessonState, id: string): (r: LessonState)
    ensures r.currentLessonId == Some(id) && r.isPlaying && r.progress == 0 && !r.isCompleted
    ensures Valid(r)
  {
    LessonState(Some(id), true, 0, false)
  }

  /** `updateProgress(p)`: only the progress changes. */
  function UpdateProgress(s: LessonState, p: int): (r: LessonState)
    ensures r.progress == p
    ensures r.currentLessonId == s.currentLessonId && r.isPlaying == s.isPlaying && r.isCompleted == s.isCompleted
    ensures Valid(s) ==> Valid(r)
  {
    s.(progress := p)
  }

  /** `completeLesson()`: stop, mark completed at 100, keep the lesson id. */
  function CompleteLesson(s: LessonState): (r: LessonState)
    ensures !r.isPlaying && r.isCompleted && r.progress == 100
    ensures r.currentLessonId == s.currentLessonId
    ensures Valid(r)
  {
    s.(isPlaying := false, isCompleted := true, progress := 100)
  }

  /** `clearCurrentLesson()`: back to the initial state. */
  function ClearCurrentLesson(s: LessonState): (r: LessonState)
    ensures r.currentLessonId.None? && !r.isPlaying && r.progress == 0 && !r.isCompleted
  {
    Initial
  }

  datatype LessonAction = Start(id: string) | Progress(p: int) | Complete | Clear

  function Reduce(s: LessonState, a: LessonAction): LessonState
  {
    match a
    case Start(id) => StartLesson(s, id)
    case Progress(p) => UpdateProgress(s, p)
    case Complete => CompleteLesson(s)
    case Clear => ClearCurrentLesson(s)
  }

  /** The state after dispatching `actions` in order. */
  function ReduceAll(s: LessonState, actions: seq<LessonAction>): LessonState
    decreases |actions|
  {
    if |actions| == 0 then s else ReduceAll(Reduce(s, actions[0]), actions[1..])
  }

  /** Clearing returns the initial state, and clearing twice is clearing once. */
  lemma ClearIsInitialAndIdempotent(s: LessonState)
    ensures ClearCurrentLesson(s) == Initial
    ensures ClearCurrentLesson(ClearCurrentLesson(s)) == ClearCurrentLesson(s)
  {
  }

  /** The invariant holds initially and after any sequence of actions. */
  lemma {:induction false} ValidReachable(s: LessonState, actions: seq<LessonAction>)
    requires Valid(s)
    ensures Valid(ReduceAll(s, actions))
    decreases |actions|
  {
    if |actions| > 0 {
      ValidReachable(Reduce(s, actions[0]), actions[1..]);
    }
  }

  lemma InitialValid()
    ensures Valid(Initial)
  {
  }
}
