/** The auth endpoints: request shapes of login, logout and register, and the login response mapping. */
module AuthApi {
  import opened Js
  import opened Http
  import opened AuthSlice
  import CoursesApi
  import QuizApi
  import LessonApi

  /** The login response body: `{statusCode, message, data: {user, accessToken, refreshToken}}`; `data` may be missing. */
  datatype LoginData = LoginData(user: Option<User>, accessToken: Option<string>, refreshToken: Option<string>, extra: seq<(string, Json)>)
  datatype LoginResponse = LoginResponse(statusCode: int, message: string, data: Option<LoginData>)

  /** The shape the login mutation resolves to. */
  datatype LoginResult = LoginResult(user: Option<User>, token: Option<string>, refreshToken: Option<string>)

  const UserTag: Tag := TypeTag("User")

  /** The auth routes of the server. */
  datatype Route = Login(credentials: Json) | Logout | Register(payload: Json)

  /** The route a request reaches, told apart by verb, path and the presence of a body; the Authorization
      header plays no part. */
  function Decode(r: Request): Option<Route>
  {
    if r.verb != POST then None
    else if r.url == "/auth/login" && r.body.Some? then Some(Login(r.body.value))
    else if r.url == "/auth/logout" && r.body.None? then Some(Logout)
    else if r.url == "/auth/register" && r.body.Some? then Some(Register(r.body.value))
    else None
  }

  /** `login.query(credentials)`: the credentials are posted unchanged. */
  function LoginRequest(credentials: Json): (r: Request)
    ensures r.url == "/auth/login" && r.verb == POST && r.body == Some(credentials)
    ensures Decode(r) == Some(Login(credentials))
  {
    WithBody("/auth/login", POST, credentials)
  }

  /** `login.transformResponse`: the user and both tokens are taken from `data`; a response without `data`
      throws (`None`), which rejects the mutation. */
  function TransformLoginResponse(resp: LoginResponse): (r: Option<LoginResult>)
    ensures r.None? <==> resp.data.None?
    ensures r.Some? ==> r.value.user == resp.data.value.user
    ensures r.Some? ==> r.value.token == resp.data.value.accessToken
    ensures r.Some? ==> r.value.refreshToken == resp.data.value.refreshToken
  {
    match resp.data
    case None => None
    case Some(d) => Some(LoginResult(d.user, d.accessToken, d.refreshToken))
  }

  /** `logout.query()`: a bodiless POST. */
  function LogoutRequest(): (r: Request)
    ensures r.url == "/auth/logout" && r.verb == POST && r.body.None?
    ensures Decode(r) == Some(Logout)
  {
    Plain("/auth/logout", POST)
  }

  /** `register.query(payload)`: the payload is posted unchanged. */
  function RegisterRequest(payload: Json): (r: Request)
    ensures r.url == "/auth/register" && r.verb == POST && r.body == Some(payload)
    ensures Decode(r) == Some(Register(payload))
  {
    WithBody("/auth/register", POST, payload)
  }

  /** The request the application sends for a route. */
  function Encode(route: Route): Request
  {
    match route
    case Login(c) => LoginRequest(c)
    case Logout => LogoutRequest()
    case Register(p) => RegisterRequest(p)
  }

  /** Every request the server routes is, header aside, the one the application builds for that route:
      the builders and `Decode` are inverse. */
  lemma DecodeExact(r: Request)
    ensures Decode(r).Some? ==> Encode(Decode(r).value) == r.(authorization := None)
  {
  }

  /** All three mutations invalidate the `User` tag. */
  function InvalidatedTags(): (tags: seq<Tag>)
    ensures tags == [UserTag]
  {
    [UserTag]
  }

  /** Logging in, out or registering refetches the student's enrollments, the one query that provides `User`,
      and leaves the course listing, the course lessons, the quiz lists and the lesson listing cached. */
  lemma AuthInvalidation(quizzes: Option<seq<QuizApi.QuizItem>>)
    ensures Refetches(InvalidatedTags(), CoursesApi.Tags(CoursesApi.GetEnrollmentsE))
    ensures !Refetches(InvalidatedTags(), CoursesApi.Tags(CoursesApi.GetAllCoursesE))
    ensures !Refetches(InvalidatedTags(), CoursesApi.Tags(CoursesApi.GetCourseLessonsE))
    ensures !Refetches(InvalidatedTags(), QuizApi.GetQuizzesTags(quizzes))
    ensures !Refetches(InvalidatedTags(), LessonApi.GetLessonsTags())
  {
    assert Hits(InvalidatedTags()[0], CoursesApi.Tags(CoursesApi.GetEnrollmentsE)[0]);
  }
}
