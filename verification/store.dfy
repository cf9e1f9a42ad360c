/**
 * The store's persistence configuration: which slice fields are written to
 * storage and restored on reload. Auth keeps `token` and `user`, the lesson
 * slice keeps all four fields, the quiz slice is not persisted at all.
 */
module Store {
  import opened Js
  import opened AuthSlice
  import LessonSlice
  import QuizSlice
  import opened Http
  import BaseApi

  datatype AppState = AppState(auth: Session, lessons: LessonSlice.LessonState, quizzes: QuizSlice.QuizState)

  const AuthWhitelist: set<string> := {"token", "user"}
  const LessonWhitelist: set<string> := {"currentLessonId", "progress", "isPlaying", "isCompleted"}

  /** The auth slice after rehydration: whitelisted fields from storage, the others from the initial state. */
  function RehydrateAuth(persisted: Session): (r: Session)
    ensures r.token == (if "token" in AuthWhitelist then persisted.token else AuthSlice.Initial.token)
    ensures r.user == (if "user" in AuthWhitelist then persisted.user else AuthSlice.Initial.user)
    ensures r.refreshToken == (if "refreshToken" in AuthWhitelist then persisted.refreshToken else AuthSlice.Initial.refreshToken)
  {
    Session(persisted.user, persisted.token, None)
  }

  /** The lesson slice after rehydration. */
  function RehydrateLessons(persisted: LessonSlice.LessonState): (r: LessonSlice.LessonState)
    ensures "currentLessonId" in LessonWhitelist && r.currentLessonId == persisted.currentLessonId
    ensures "progress" in LessonWhitelist && r.progress == persisted.progress
    ensures "isPlaying" in LessonWhitelist && r.isPlaying == persisted.isPlaying
    ensures "isCompleted" in LessonWhitelist && r.isCompleted == persisted.isCompleted
  {
    persisted
  }

  /** A page reload: persisted slices are restored, the quiz slice starts over. */
  function Reload(st: AppState): (r: AppState)
    ensures r.auth.token == st.auth.token && r.auth.user == st.auth.user
    ensures r.auth.refreshToken.None?
    ensures r.lessons == st.lessons
    ensures r.quizzes == QuizSlice.Initial
  {
    AppState(RehydrateAuth(st.auth), RehydrateLessons(st.lessons), QuizSlice.Initial)
  }

  /** Reloading twice is reloading once. */
  lemma ReloadIdempotent(st: AppState)
    ensures Reload(Reload(st)) == Reload(st)
  {
  }

  /**
   * Since the refresh token is not persisted, the first 401 after a reload
   * always ends the session: the wrapper finds no refresh token, logs out,
   * and sends nothing after the original call.
   */
  lemma FirstUnauthorizedAfterReloadLogsOut(st: AppState, args: Request, net: BaseApi.Network)
    requires BaseApi.Is401(net(0, BaseApi.PrepareHeaders(args, Reload(st).auth)))
    ensures var o := BaseApi.BaseQueryWithRefreshToken(args, Reload(st).auth, net);
            o.session == AuthSlice.Initial && |o.calls| == 1 && o.result == net(0, o.calls[0])
  {
  }
}
