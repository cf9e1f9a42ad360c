# Course management dashboard: a Dafny model

This project models the client-side logic of a React/Redux dashboard for an
online learning platform. Students follow courses, tick lessons and take
quizzes. Administrators manage courses, batches, quizzes and lessons. The
model covers:

- **Session handling.** This is the `auth` slice (`setUser`, `logout`, the
  selectors) and the `prepareHeaders` bearer header. It includes the
  `baseQueryWithRefreshToken` wrapper, which turns a 401 into at most one
  refresh call and one retry. It also covers the route guard
  `ProtectedRoute`, the `redux-persist` whitelists of the store, and the
  lesson and quiz slices.
- **The RTK Query endpoints.** These are `authApi`, `coursesApi` (with the
  query-string builder of `getAllCourses`), `quizeApi` and `lessonAPi`.
  Each is a request value (URL, verb, body, header). Their cache tags are
  modelled with RTK Query's invalidation rule. An invalidated tag without an
  id (a bare type, or an id that is `undefined`) hits every provider of that
  type. An invalidated id hits the providers filed under it. A provider is
  filed under its id, or under the reserved key `__internal_without_id` when
  its id is missing or empty.
- **The page logic behind the views.**
  - The course filters, pagination window and statistics of the course
    management and course listing pages.
  - The batch page's statistics, filters, create, edit and delete.
  - The optimistic lesson toggle of the course page.
  - The student dashboard's average progress.
  - The quiz player and the quiz editor.
  - Login and registration: validation, the session write, and the mapping
    of server errors to fields.
  - The lessons page's paging and duration display.
  - The sidebar's role-dependent links and the dashboard layout's student
    redirect.

The modelling conventions are these:

- Every operation is a pure function over immutable datatypes. React state
  updates become functions from old state to new state.
- `null` and `undefined` are `Js.Option.None`. JavaScript `||` and `??` are
  written out (`Js.Or`, `Js.OrElse`, `Js.Coalesce`).
- The network is a parameter. `BaseApi.Network` maps the call number within
  one invocation and the request to the call's result.
- Percent-encoding of `URLSearchParams` is the `encode` parameter of
  `CoursesApi.Serialize`.
- `Math.round(a / b)` with `b > 0` is the exact rational rounding
  `Js.RoundDiv`.
- Dates are compared as integers (`Batch.StatusOf` takes `now` as a
  parameter).
- `toLowerCase` acts on ASCII letters only.
- `\s` and `trim()` use the ECMAScript white-space and line-terminator set.

The modules follow the source tree:

- `Js`, `Text` and `Http` are the shared vocabulary.
- `AuthSlice`, `BaseApi`, `AuthApi`, `Store`, `LessonSlice`, `QuizSlice`,
  `CoursesApi`, `QuizApi` and `LessonApi` model the Redux layer.
- `ProtectedRoute` models the route guard.
- `CourseFilters` and `CourseManagement` model the course management page
  and the all-courses page.
- `Batch`, `CoursePage`, `StudentDashboard`, `QuizPlayer`, `QuizEditor`,
  `Login`, `Register`, `ServerErrors`, `LessonsPage`, `Sidebar` and
  `DashboardLayout` model the remaining views.

Where the repository's own description and the code disagree, the model
follows the code:

- The refresh token is not persisted. Only `token` and `user` are in the auth
  whitelist. So after a reload the first 401 always logs the user out
  (`Store.FirstUnauthorizedAfterReloadLogsOut`).
- `setUser` writes whatever tokens it is given. The session can therefore
  hold an access token without a refresh token
  (`AuthSlice.PartialSessionReachable`).
- The route guard treats a missing or non-array `allowedRoles` as an error.
  It logs out and redirects to the login page; it does not deny only that
  route.

## Model

| member | source | states |
|---|---|---|
| AuthSlice.SetUser | src/redux/features/auth/authSlice.js:15-20 | both tokens are stored exactly as given, present or not; the user is replaced only when one is supplied, else the stored user is kept |
| AuthSlice.Logout | src/redux/features/auth/authSlice.js:22-26 | after logout the selectors return no user, no token and no refresh token, whatever the state was |
| AuthSlice.InitialIsEmpty | src/redux/features/auth/authSlice.js:4-8 | the initial session has no user and no tokens |
| AuthSlice.LogoutIdempotent | src/redux/features/auth/authSlice.js:22-26 | logging out twice equals logging out once |
| AuthSlice.SetUserRoundTrip | src/redux/features/auth/authSlice.js:15-36 | reading a `setUser` with a user back through the three selectors returns exactly the user and tokens that were written |
| AuthSlice.SetUserThenLogout | src/redux/features/auth/authSlice.js:15-26 | from any state, `setUser` followed by `logout` is the initial state |
| AuthSlice.PartialSessionReachable | src/redux/features/auth/authSlice.js:15-20 | one `setUser` from the initial state can leave a non-empty access token next to a missing refresh token |
| BaseApi.PrepareHeaders | src/redux/api/baseApi.js:8-13 | URL, verb and body are kept; a truthy session token sets `Authorization: Bearer <token>`; otherwise the request's own header is kept |
| BaseApi.NewTokens | src/redux/api/baseApi.js:41-42 | a token pair is read only from a successful refresh whose data has both tokens as non-empty strings, and it is read whenever that holds (a truthy token of another type counts as missing; see "## Left out") |
| BaseApi.BaseQueryWithRefreshToken | src/redux/api/baseApi.js:17-78 | a non-401 result is returned as is; a 401 with no refresh token logs out; otherwise exactly one refresh call goes second; a retry with the new bearer token is made only after both tokens came back; a failed or throwing refresh or retry logs out and returns the first 401 |
| BaseApi.AtMostOneRefresh | src/redux/api/baseApi.js:29-39 | for a request that is not itself the refresh call, one invocation sends at most one refresh call, and sends one exactly when it issues more than one call |
| BaseApi.SessionOutcomes | src/redux/api/baseApi.js:20-75 | the session afterwards is the old one, the logged-out one, or the old user with both tokens from the refresh reply; it changes only after a first 401 |
| BaseApi.ResultIsFirstOrRetry | src/redux/api/baseApi.js:56-77 | the result returned is the first call's or the retry's; a 401 from the retry is passed to the caller without logging out |
| BaseApi.AuthorizationHeader | src/redux/api/baseApi.js:10-11 | a request without its own header gets one exactly when the token is truthy, and that header is `Bearer <token>` |
| AuthApi.LoginRequest | src/redux/features/auth/authApi.js:6-11 | the request reaches the server's login route carrying exactly the credentials given, so distinct credentials give distinct requests |
| AuthApi.TransformLoginResponse | src/redux/features/auth/authApi.js:12-20 | a response without `data` makes the transform fail (the mutation rejects); otherwise the result's user, token and refresh token are `data.user`, `data.accessToken` and `data.refreshToken` |
| AuthApi.LogoutRequest | src/redux/features/auth/authApi.js:25-30 | the request reaches the server's logout route, which carries no body |
| AuthApi.RegisterRequest | src/redux/features/auth/authApi.js:34-39 | the request reaches the server's register route carrying exactly the payload given |
| AuthApi.DecodeExact | src/redux/features/auth/authApi.js:6-41 | conversely, every request the server routes to an auth route is, apart from the Authorization header, the one the application builds for it: builders and routing are inverse |
| AuthApi.InvalidatedTags | src/redux/features/auth/authApi.js:21-40 | each of the three mutations invalidates the `User` type tag; what that refetches is stated by `AuthApi.AuthInvalidation` |
| AuthApi.AuthInvalidation | src/redux/features/auth/authApi.js:21-41 | logging in, out or registering refetches the student's enrollments (the query that provides `User`) and leaves the course listing, course lessons, quiz lists and lesson listing cached |
| Store.RehydrateAuth | src/redux/features/store.js:18-22 | after rehydration token and user come from storage; the refresh token comes from the initial state, since it is not whitelisted |
| Store.RehydrateLessons | src/redux/features/store.js:24-28 | all four lesson fields are whitelisted and restored |
| Store.Reload | src/redux/features/store.js:33-40 | a reload keeps token, user and the lesson slice, drops the refresh token, and resets the unpersisted quiz slice |
| Store.ReloadIdempotent | src/redux/features/store.js:18-28 | reloading twice equals reloading once |
| Store.FirstUnauthorizedAfterReloadLogsOut | src/redux/features/store.js:18-22 | after a reload, a request whose first answer is 401 is not retried: it sends one call, returns the 401 and ends logged out |
| ProtectedRoute.Includes | src/routes/ProtectedRoute.jsx:40-45 | the lower-cased role is in the lower-cased allowed list exactly when some allowed role equals it up to ASCII case |
| ProtectedRoute.Guard | src/routes/ProtectedRoute.jsx:17-57 | no token means redirect to login without logout; a token with a missing user, a missing role or a non-array role list means logout and login; otherwise the children render exactly when the role is allowed, and `/unauthorized` is shown exactly when it is not |
| ProtectedRoute.SessionAfter | src/routes/ProtectedRoute.jsx:52-56 | only the error paths clear the session; every other decision leaves it as it was |
| ProtectedRoute.Target | src/routes/ProtectedRoute.jsx:17-57 | a decision has no redirect target exactly when the children are rendered |
| ProtectedRoute.CaseInsensitive | src/routes/ProtectedRoute.jsx:39-45 | two stored roles equal up to case get the same decision |
| ProtectedRoute.AdminMatchesCapitalised | src/routes/ProtectedRoute.jsx:39-45 | a stored "Admin" passes a route that allows "admin" |
| ProtectedRoute.StudentOnAdminRoute | src/routes/ProtectedRoute.jsx:45-51 | a student on an admin-only route goes to `/unauthorized` and keeps the session |
| ProtectedRoute.DashboardRoles | src/routes/Router.jsx:26 | the dashboard route admits "admin", "user" and "student" in any letter case |
| LessonSlice.StartLesson | src/redux/features/lessons/lessonSlice.js:15-20 | starting opens the given lesson, playing, at progress 0, not completed |
| LessonSlice.UpdateProgress | src/redux/features/lessons/lessonSlice.js:22-24 | only the progress changes |
| LessonSlice.CompleteLesson | src/redux/features/lessons/lessonSlice.js:26-30 | completion stops playback, marks the lesson completed at 100 and keeps its id |
| LessonSlice.ClearCurrentLesson | src/redux/features/lessons/lessonSlice.js:33-38 | clearing yields the initial state |
| LessonSlice.ClearIsInitialAndIdempotent | src/redux/features/lessons/lessonSlice.js:33-38 | clearing from any state gives the initial state, and clearing twice is clearing once |
| LessonSlice.ValidReachable | src/redux/features/lessons/lessonSlice.js:15-38 | after any sequence of actions from a valid state, a lesson is never playing and completed at once |
| LessonSlice.InitialValid | src/redux/features/lessons/lessonSlice.js:3-8 | the initial state is neither playing nor completed |
| QuizSlice.SetQuizLoading | src/redux/features/quize/quizSlice.js:13-16 | loading is set, the error is cleared and the quiz is kept |
| QuizSlice.SetQuizSuccess | src/redux/features/quize/quizSlice.js:17-20 | loading ends and the quiz is stored; the error is left in place |
| QuizSlice.SetQuizError | src/redux/features/quize/quizSlice.js:21-24 | loading ends and the error is stored; the quiz is kept |
| QuizSlice.ClearQuiz | src/redux/features/quize/quizSlice.js:25-29 | clearing yields the initial state |
| QuizSlice.StaleErrorAfterSuccess | src/redux/features/quize/quizSlice.js:13-24 | an error followed by a success shows both quiz and error; a load in between removes the error |
| CoursesApi.OptionalParams | src/redux/features/courses/coursesApi.js:52-69 | the optional filters appear in the fixed order search, category, tags, status, minPrice, maxPrice; each appears exactly when its trimmed value is non-empty, with that trimmed value |
| CoursesApi.QueryParams | src/redux/features/courses/coursesApi.js:37-69 | `page` and `limit` come first, always, defaulting to 0; the filters follow as above |
| CoursesApi.GetAllCourses | src/redux/features/courses/coursesApi.js:73-76 | the request reaches the server's listing route with the serialised parameters as its query; `CoursesApi.ListingRoundTrip` states what the server reads back |
| CoursesApi.ListingRoundTrip | src/redux/features/courses/coursesApi.js:47-76 | when the encoder leaves no `&` or `=` in its output, the server parses the listing query back into exactly the appended parameters, encoded, in the order appended |
| CoursesApi.NoFiltersOnlyPaging | src/redux/features/courses/coursesApi.js:47-69 | with no filters the parameters are exactly page and limit |
| CoursesApi.BlankFilterDropped | src/redux/features/courses/coursesApi.js:52-54 | a search of white space only is not sent, whatever else is set |
| CoursesApi.GetEnrollments | src/redux/features/courses/coursesApi.js:5-9 | the request reaches the server's "my enrollments" route, distinct from every other course route |
| CoursesApi.GetCourseLessons | src/redux/features/courses/coursesApi.js:12-16 | the request reaches the course-lessons route and the server reads back exactly `courseId` |
| CoursesApi.UpdateEnrollmentProgress | src/redux/features/courses/coursesApi.js:19-24 | the request reaches the progress route; the server reads back exactly `courseId` and the body |
| CoursesApi.CreateAssignment | src/redux/features/courses/coursesApi.js:27-32 | the request reaches the assignment route; the server reads back exactly `courseId` and the body |
| CoursesApi.CreateCourse | src/redux/features/courses/coursesApi.js:81-87 | the request reaches the course-creation route carrying exactly the form |
| CoursesApi.UpdateCourse | src/redux/features/courses/coursesApi.js:90-95 | the request reaches the course-update route; the server reads back exactly `courseId` and the body |
| CoursesApi.DeleteCourse | src/redux/features/courses/coursesApi.js:98-102 | the request reaches the course-deletion route and the server reads back exactly `courseId` |
| CoursesApi.DecodeExact | src/redux/features/courses/coursesApi.js:5-104 | every request the server routes to a course route is, apart from the Authorization header, the one the application builds for it |
| CoursesApi.CourseInvalidation | src/redux/features/courses/coursesApi.js:5-104 | a mutation refetches the course listing exactly when it is create, update or delete course; it refetches enrollments and course lessons exactly when it is a progress update or an assignment |
| Http.IdTagHits | src/redux/features/quize/quizeApi.js:9-46 | the invalidation rule the quiz tags rely on: a non-empty id hits providers with that same id, the reserved key hits providers whose id is missing or empty, an empty id hits nothing, and an `undefined` id or a bare type hits every provider of the type |
| QuizApi.GetQuizzes | src/redux/features/quize/quizeApi.js:7-8 | the request reaches the server's quiz-list route |
| QuizApi.GetQuizzesTags | src/redux/features/quize/quizeApi.js:9-15 | with data, one id tag per quiz (id `_id` or else `id`) followed by the list tag; without data, only the list tag |
| QuizApi.GetQuizById | src/redux/features/quize/quizeApi.js:19-20 | the request reaches the single-quiz route and the server reads back exactly `quizId` |
| QuizApi.CreateQuiz | src/redux/features/quize/quizeApi.js:25-26 | the request reaches the quiz-creation route carrying exactly the payload |
| QuizApi.UpdateQuiz | src/redux/features/quize/quizeApi.js:31-32 | a PUT whose body is the argument without its `id` field; the server reads back the `id` as the template literal interpolates it (an array as its comma-joined elements, see `QuizApi.ArrayOfStrings`), and that patch |
| QuizApi.UpdateQuizTags | src/redux/features/quize/quizeApi.js:33 | a single `Quizzes` tag for the quiz whose path the PUT addresses (a string `id` as is), or a tag without id, which refetches every quiz query (`QuizApi.ItemInvalidation`), when the argument has no `id` |
| QuizApi.DeleteQuiz | src/redux/features/quize/quizeApi.js:37-38 | the request reaches the quiz-deletion route and the server reads back exactly the id |
| QuizApi.SubmitQuiz | src/redux/features/quize/quizeApi.js:43-44 | the request reaches the submit route; the server reads back exactly `quizId` and the answers |
| QuizApi.DecodeExact | src/redux/features/quize/quizeApi.js:7-46 | every request the server routes to a quiz route is, apart from the Authorization header, the one the application builds for it |
| QuizApi.ListInvalidation | src/redux/features/quize/quizeApi.js:25-40 | create and delete refetch every quiz list; create leaves another cached quiz alone; delete refetches the deleted quiz exactly when its id is non-empty (an empty provided id is filed under the reserved key) |
| QuizApi.ItemInvalidation | src/redux/features/quize/quizeApi.js:9-46 | submit, and update with a string `id`, refetch that quiz exactly when its id is non-empty; they refetch a list exactly when an entry's `_id \|\| id` equals the id (for the reserved key, also when an entry has no id); an update without `id` refetches the list and every single quiz |
| QuizApi.ListHits | src/redux/features/quize/quizeApi.js:9-15 | an id hits the quiz list exactly when some entry is filed under it; an entry is filed under `_id \|\| id`, or under the reserved key when that is missing or empty |
| QuizApi.ArrayOfStrings | src/redux/features/quize/quizeApi.js:32 | an array `id` is interpolated as its elements joined by commas, and splitting that text at commas gives the elements back when none contains a comma |
| LessonApi.GetLessons | src/redux/features/lessons/lessonAPi.js:7-11 | the request reaches the lesson-listing route and the server reads back exactly the page and size asked for, 1 and 6 when omitted |
| LessonApi.ListingOf | src/redux/features/lessons/lessonAPi.js:8-9 | for every page and size, the listing query parses back into `page` then `limit` with those integer values |
| LessonApi.GetLessonById | src/redux/features/lessons/lessonAPi.js:17-21 | the request reaches the single-lesson route and the server reads back exactly `lessonId` |
| LessonApi.CreateLesson | src/redux/features/lessons/lessonAPi.js:28-33 | the request reaches the lesson-creation route carrying exactly the payload |
| LessonApi.UpdateLesson | src/redux/features/lessons/lessonAPi.js:38-43 | the request reaches the lesson-update route; the server reads back exactly `lessonId` and the body |
| LessonApi.DecodeExact | src/redux/features/lessons/lessonAPi.js:7-43 | every request the server routes to a lesson route is, apart from the Authorization header, the one the application builds for it |
| LessonApi.LessonInvalidation | src/redux/features/lessons/lessonAPi.js:12-47 | an update refetches the listing; it refetches that lesson exactly when the id is non-empty, and no other lesson with a non-empty id; a create refetches the listing and no single lesson |
| CourseFilters.Remove | src/pages/CourseManagement/CourseManagement.jsx:224 | the value is gone, every other value keeps its membership, and a list without the value comes back unchanged |
| CourseFilters.RemoveAppend | src/pages/CourseManagement/CourseManagement.jsx:224 | removing from a concatenation removes from each part, so the kept values stay in order |
| CourseFilters.RemoveOne | src/pages/CourseManagement/CourseManagement.jsx:224 | a single value is dropped exactly when it is the removed one; with `RemoveAppend`, every other occurrence is kept |
| CourseFilters.RemoveNoDup | src/pages/CourseManagement/CourseManagement.jsx:224 | removing keeps a list free of duplicates |
| CourseFilters.ToggleTag | src/pages/CourseManagement/CourseManagement.jsx:95-102 | the toggled tag's membership flips, every other tag's membership is unchanged, and an unselected tag is appended at the end |
| CourseFilters.ToggleKeepsNoDup | src/pages/CourseManagement/CourseManagement.jsx:95-102 | toggling keeps a selection free of duplicates |
| CourseFilters.ToggleTwiceRestores | src/pages/CourseManagement/CourseManagement.jsx:221-228 | toggling an unselected tag twice restores the selection exactly |
| CourseFilters.ToggleTagFilter | src/pages/CourseManagement/CourseManagement.jsx:221-228 | the filter chip toggles its tag and returns to page 1; no other filter changes |
| CourseFilters.ClearAllFilters | src/pages/CourseManagement/CourseManagement.jsx:231-239 | every filter is emptied and the page is 1; the page size is kept |
| CourseFilters.ClearIdempotent | src/pages/CourseManagement/CourseManagement.jsx:231-239 | clearing twice is clearing once, and clearing the initial filters changes nothing |
| CourseFilters.Unless | src/pages/CourseManagement/CourseManagement.jsx:27-32 | an empty input is omitted and any other input is passed as is |
| CourseFilters.Query | src/pages/CourseManagement/CourseManagement.jsx:24-33 | page and size are always passed; each text filter is passed with its own value exactly when it is non-empty; the tags are omitted exactly when none are selected, and a single tag is passed as is |
| CourseFilters.TagsRoundTrip | src/pages/CourseManagement/CourseManagement.jsx:29 | when no tag contains a comma, splitting the joined value at commas gives back the selected tags, in order |
| CourseFilters.QuerySendsFilters | src/pages/CourseManagement/CourseManagement.jsx:24-33 | on the wire each filter box arrives under its own name as its trimmed text, unless that is empty, and the tags as one comma-joined value |
| CourseFilters.ClearedQuery | src/pages/CourseManagement/CourseManagement.jsx:231-239 | after "clear all" the request parameters are exactly page 1 and the page size |
| CourseFilters.TotalPages | src/pages/CourseManagement/CourseManagement.jsx:46 | the page count is never 0, and a missing `totalPages` gives 1 |
| CourseFilters.TotalCourses | src/pages/CourseManagement/CourseManagement.jsx:45 | a missing `total` gives 0 |
| CourseFilters.Prev | src/pages/CourseManagement/CourseManagement.jsx:627 | the previous button never goes below 1, and goes one page back from any later page |
| CourseFilters.Next | src/pages/CourseManagement/CourseManagement.jsx:662 | the next button never goes past the last page, and goes one page on from any earlier page |
| CourseFilters.PagingStaysInRange | src/pages/CourseManagement/CourseManagement.jsx:627-663 | from a page in range both buttons stay in range; page 1 is fixed under previous and the last page under next |
| CourseFilters.Window | src/pages/CourseManagement/CourseManagement.jsx:634-644 | the window holds min(5, totalPages) consecutive pages inside [1, totalPages] (none when there are no pages), and it contains the current page when that page is in range |
| CourseFilters.WindowDistinct | src/pages/CourseManagement/CourseManagement.jsx:647-648 | no page number repeats, so the buttons' keys are unique |
| CourseFilters.ShowingRangeBounds | src/pages/CourseManagement/CourseManagement.jsx:620-621 | on a page that holds courses, "showing a to b" is a non-empty range within the total and at most one page long, ending at the total on the last page |
| CourseManagement.Distinct | src/pages/CourseManagement/CourseManagement.jsx:49-50 | the result has no duplicates, and a value is in it exactly when it is a non-empty value of the input |
| CourseManagement.DistinctIdentity | src/pages/CourseManagement/CourseManagement.jsx:49-50 | a list without blanks or repeats passes through unchanged, order included |
| CourseManagement.DistinctFirstOccurrence | src/pages/CourseManagement/CourseManagement.jsx:49-50 | the values come in order of first occurrence: wherever a later value occurs in the input, every earlier value has occurred before it |
| CourseManagement.DistinctIdempotent | src/pages/CourseManagement/CourseManagement.jsx:49-50 | applying the dedup twice equals applying it once |
| CourseManagement.AllCategories | src/pages/CourseManagement/CourseManagement.jsx:49 | one entry per course, in listing order, each that course's category |
| CourseManagement.Categories | src/pages/CourseManagement/CourseManagement.jsx:49 | the category options are distinct, and a category is offered exactly when some course has it non-empty |
| CourseManagement.FlatTags | src/pages/CourseManagement/CourseManagement.jsx:50 | a tag is in the flattened list exactly when some course lists it; a course without tags contributes none |
| CourseManagement.AllTags | src/pages/CourseManagement/CourseManagement.jsx:50 | the tag options are distinct, and a tag is offered exactly when some course has it and it is non-empty |
| CourseManagement.ComputeStats | src/pages/CourseManagement/CourseManagement.jsx:53-59 | published plus draft is the number of courses on the page; total is the server's count |
| CourseManagement.PublishedPlusDraft | src/pages/CourseManagement/CourseManagement.jsx:55-56 | every course is counted once, as published or as draft |
| CourseManagement.StatsAppend | src/pages/CourseManagement/CourseManagement.jsx:55-58 | one more course adds exactly its own share to each count and sum |
| CourseManagement.AddCustomTag | src/pages/CourseManagement/CourseManagement.jsx:815-826 | on Enter or comma, a trimmed non-empty new tag is appended and the input cleared; in every other case tags and input stay |
| CourseManagement.CustomTagKeepsTagsClean | src/pages/CourseManagement/CourseManagement.jsx:815-826 | custom tags never add a duplicate, a blank, or a tag with white space at either end |
| Batch.StatusOf | src/pages/Batch/Batch.jsx:329-337 | before the start the status is upcoming; after the end it is completed; otherwise it is active |
| Batch.ActiveAgrees | src/pages/Batch/Batch.jsx:54-56 | the status badge says active exactly for the batches the statistics count as active |
| Batch.ComputeStats | src/pages/Batch/Batch.jsx:50-71 | total is the number of batches; active counts the running batches and full those at capacity; with batches, the average is the total enrolment divided by their number, rounded half up; with none every figure is 0 |
| Batch.CountsBounded | src/pages/Batch/Batch.jsx:54-60 | active and full never exceed the total |
| Batch.AverageBetween | src/pages/Batch/Batch.jsx:62-63 | the rounded average enrollment lies between the smallest and largest enrollment |
| Batch.Filter | src/pages/Batch/Batch.jsx:187-197 | a batch is shown exactly when it is listed and matches both the search (name, course title or instructor, ignoring ASCII case) and the capacity filter |
| Batch.FilterAppend | src/pages/Batch/Batch.jsx:187-197 | filtering a concatenation filters each part in place, so the shown batches keep the list order |
| Batch.FilterOne | src/pages/Batch/Batch.jsx:187-197 | a single batch is kept exactly when it is shown |
| Batch.NoFilterShowsAll | src/pages/Batch/Batch.jsx:187-197 | an empty search and no capacity filter show every batch |
| Batch.FullAndAvailablePartition | src/pages/Batch/Batch.jsx:192-194 | for one search, "full" and "available" split the matches: each match is in exactly one, and no other batch is in either |
| Batch.Delete | src/pages/Batch/Batch.jsx:246-250 | a batch remains exactly when it was listed and has another id |
| Batch.DeleteAppend | src/pages/Batch/Batch.jsx:246-250 | deleting from a concatenation deletes from each part in place, so the survivors keep their order; a single batch survives exactly when its id differs |
| Batch.SubmitEdit | src/pages/Batch/Batch.jsx:270-281 | batches with the edited id take the form's name, course id, instructor, start and end dates and capacity, keeping id, enrolment and course title; the rest is untouched |
| Batch.EditKeepsEnrolment | src/pages/Batch/Batch.jsx:270-281 | saving an edit keeps the batch count, the total enrolment and the average card, and saving the same form twice equals saving it once |
| Batch.SubmitCreate | src/pages/Batch/Batch.jsx:284-300 | the list is kept and one batch is appended with the new id, no enrollments and the title "Course " followed by the course id |
| Batch.DeleteUndoesCreate | src/pages/Batch/Batch.jsx:234-300 | creating under a fresh id and deleting that id restores the list |
| Batch.CreateStats | src/pages/Batch/Batch.jsx:58-60 | a new batch counts as full exactly when its capacity is at most 0 |
| CoursePage.RawLessons | src/pages/Dashboard/CoursePage.jsx:51-54 | an array reply is used as is; `data` is used when it is an array; any other object becomes a single lesson; anything else gives none; `CoursePage.LessonsRoundTrip` relates it to the lessons the page shows |
| CoursePage.Normalize | src/pages/Dashboard/CoursePage.jsx:56-63 | the id is `_id` or else `id`; the title is the first truthy of title, name and "Untitled Lesson", so never empty; completed holds only when the field is `true`; `CoursePage.NormalizeStable` shows it leaves the page's own lessons unchanged |
| CoursePage.Lessons | src/pages/Dashboard/CoursePage.jsx:65 | the normalised reply when it has lessons; the course's own lessons otherwise |
| CoursePage.NormalizeStable | src/pages/Dashboard/CoursePage.jsx:56-63 | a lesson the page could have produced, sent back by the server, normalises to itself |
| CoursePage.LessonsRoundTrip | src/pages/Dashboard/CoursePage.jsx:51-65 | whether the server sends such lessons as a bare array or inside `data`, the page shows exactly those lessons in order |
| CoursePage.Toggle | src/pages/Dashboard/CoursePage.jsx:104-106 | every lesson with the id flips its flag; nothing else changes, and the length is kept |
| CoursePage.ToggleTwice | src/pages/Dashboard/CoursePage.jsx:104-106 | toggling the same id twice restores the list |
| CoursePage.PrevCompleted | src/pages/Dashboard/CoursePage.jsx:100-102 | the flag of the first lesson with that id, or false when there is none |
| CoursePage.Ratio | src/pages/Dashboard/CoursePage.jsx:109-111 | the rounded completed percentage lies in [0, 100] |
| CoursePage.ProgressAsWritten | src/pages/Dashboard/CoursePage.jsx:108-112 | as written: 100 whenever the lesson was ticked, else the rounded completed share |
| CoursePage.RatioEnds | src/pages/Dashboard/CoursePage.jsx:109-111 | no completed lesson gives 0%, and all lessons completed give 100% |
| CoursePage.Progress | src/pages/Dashboard/CoursePage.jsx:108-111 | as intended: the rounded completed share, whichever way the lesson was toggled |
| CoursePage.ProgressAsWrittenOvershoots | src/pages/Dashboard/CoursePage.jsx:108-112 | ticking one of two open lessons reports 100 as written, against 50 as intended |
| CoursePage.ProgressAgreesOnUntick | src/pages/Dashboard/CoursePage.jsx:108-112 | the two agree whenever a lesson is unticked, and the intended value never exceeds the written one |
| CoursePage.CompletedIds | src/pages/Dashboard/CoursePage.jsx:117 | an id is listed exactly when some completed lesson carries it, and there is one entry per completed lesson |
| CoursePage.CompletedIdsAppend | src/pages/Dashboard/CoursePage.jsx:117 | the ids of a concatenation are those of each part, in place, so the ids follow lesson order |
| CoursePage.CompletedIdsOne | src/pages/Dashboard/CoursePage.jsx:117 | a single lesson contributes its id exactly when it is completed |
| CoursePage.MergeLessons | src/pages/Dashboard/CoursePage.jsx:127-130 | a lesson ends completed exactly when it was completed already or the server lists its id; no other field changes |
| CoursePage.MergeMonotoneIdempotent | src/pages/Dashboard/CoursePage.jsx:127-130 | the merge never unticks a lesson, and merging the same reply twice equals merging once |
| CoursePage.DoneMonotone | src/pages/Dashboard/CoursePage.jsx:110 | completing more lessons, position by position, never lowers the count |
| CoursePage.RevertAsWritten | src/pages/Dashboard/CoursePage.jsx:138-142 | as written: the toggled lessons are set to the negation of their earlier flag |
| CoursePage.Revert | src/pages/Dashboard/CoursePage.jsx:138-142 | as intended: the toggled lessons get their earlier flag back; nothing else changes |
| CoursePage.RevertAsWrittenKeepsOptimistic | src/pages/Dashboard/CoursePage.jsx:138-142 | with distinct ids, the written handler applied to the optimistic list returns that list unchanged, so nothing is reverted |
| CoursePage.RevertAsWrittenExample | src/pages/Dashboard/CoursePage.jsx:138-142 | a ticked-then-failed open lesson stays ticked |
| CoursePage.RevertUndoesToggle | src/pages/Dashboard/CoursePage.jsx:138-142 | with distinct ids, the intended handler applied after the toggle gives back the original list |
| CoursePage.ToggleRequest | src/pages/Dashboard/CoursePage.jsx:108-120 | as intended, not as written (see `CoursePage.ToggleRequestAsWritten` for lines 112 and 120): the request body carries the completed share of the toggled list and its completed ids |
| CoursePage.ToggleRequestAsWritten | src/pages/Dashboard/CoursePage.jsx:108-120 | as written: a tick sends progress 100; an untick sends exactly the intended request; the completed ids are always the intended ones, and the intended progress never exceeds the sent one |
| CoursePage.ToggleRequestOvershoots | src/pages/Dashboard/CoursePage.jsx:108-120 | ticking the first of two open lessons sends progress 100 with that lesson's id, where the intended request sends 50 |
| CoursePage.HandleToggle | src/pages/Dashboard/CoursePage.jsx:97-144 | as intended, not as written (see `CoursePage.HandleToggleAsWritten` for lines 138-142): with distinct ids an error restores the course exactly; an empty reply keeps the optimistic lessons and progress; a reply with an enrollment is merged and its progress used when present |
| CoursePage.HandleToggleAsWritten | src/pages/Dashboard/CoursePage.jsx:97-144 | as written: with distinct ids an error leaves the optimistic lessons and the forced progress in place |
| StudentDashboard.ToCard | src/pages/Dashboard/StudentDashboard.jsx:11-22 | the progress is the enrollment's or else 0; the lesson count is the syllabus length or else 0; id and title come from the course |
| StudentDashboard.EnrolledSamples | src/pages/Dashboard/StudentDashboard.jsx:24 | a card is listed exactly when it is a sample course flagged as enrolled |
| StudentDashboard.EnrolledSamplesAppend | src/pages/Dashboard/StudentDashboard.jsx:24 | the enrolled samples of a concatenation are those of each part, in place: catalogue order and repeats are kept |
| StudentDashboard.EnrolledSamplesOne | src/pages/Dashboard/StudentDashboard.jsx:24 | a single sample contributes its card exactly when it is enrolled |
| StudentDashboard.Courses | src/pages/Dashboard/StudentDashboard.jsx:24 | one card per enrollment; the enrolled samples only when there are no enrollments |
| StudentDashboard.AvgProgress | src/pages/Dashboard/StudentDashboard.jsx:26-28 | with no cards the average is 0, since the divisor falls back to 1 |
| StudentDashboard.AvgProgressBetween | src/pages/Dashboard/StudentDashboard.jsx:26-28 | the average lies between the lowest and the highest progress |
| StudentDashboard.DashboardAverageIsPercentage | src/pages/Dashboard/StudentDashboard.jsx:11-28 | enrollments with progress in [0, 100] give an average in [0, 100] |
| QuizPlayer.SelectAnswer | src/component/quiz/Quiz.jsx:20-27 | before submission the current question's answer is set, replacing any earlier one, and no other answer changes; after submission nothing changes |
| QuizPlayer.Next | src/component/quiz/Quiz.jsx:29-33 | the index moves on unless it is at the last question |
| QuizPlayer.Previous | src/component/quiz/Quiz.jsx:35-39 | the index moves back unless it is at the first question |
| QuizPlayer.JumpTo | src/component/quiz/Quiz.jsx:245 | a dot click selects that question and keeps the answers |
| QuizPlayer.Tick | src/component/quiz/Quiz.jsx:11-18 | the timer adds one second until submission and stops after it |
| QuizPlayer.CorrectOnes | src/component/quiz/Quiz.jsx:49-57 | a question is listed exactly when it is in the quiz and answered with its correct index |
| QuizPlayer.CorrectOnesAppend | src/component/quiz/Quiz.jsx:49-57 | the correct answers of a concatenation are those of each part, in place, so the list follows quiz order |
| QuizPlayer.CorrectOnesOne | src/component/quiz/Quiz.jsx:49-57 | a single question is listed exactly when it was answered correctly |
| QuizPlayer.ScoreIsMarksOfCorrect | src/component/quiz/Quiz.jsx:49-57 | the score is the total marks of the correctly answered questions |
| QuizPlayer.ScoreBounds | src/component/quiz/Quiz.jsx:43-44 | with non-negative marks, the score lies between 0 and the total marks |
| QuizPlayer.ScoreExtremes | src/component/quiz/Quiz.jsx:49-57 | all answers correct give the total; no answers give 0 |
| QuizPlayer.Submit | src/component/quiz/Quiz.jsx:41-47 | submission enters review mode and keeps the answers; it reports the marks of the correct answers as score, the quiz's total marks as total, and a time that reads back as the elapsed seconds |
| QuizPlayer.AnsweredCountMonotone | src/component/quiz/Quiz.jsx:80 | selecting an answer never lowers the answered count |
| QuizPlayer.AnsweredCountBound | src/component/quiz/Quiz.jsx:80 | in a reachable state the answered count is at most the number of questions |
| QuizPlayer.FormatTime | src/component/quiz/Quiz.jsx:59-63 | the display is at least two digits of minutes, a colon and two digits of seconds |
| QuizPlayer.FormatParseRoundTrip | src/component/quiz/Quiz.jsx:59-63 | reading the display back gives the seconds formatted, and its seconds part is under 60 |
| QuizEditor.AddQuestion | src/pages/Quiz/Quiz.jsx:80-94 | exactly one question is appended and it is the blank question (empty text, no options, option 0 correct, empty explanation, 0 marks); the others and every other form field are untouched |
| QuizEditor.Splice | src/pages/Quiz/Quiz.jsx:99 | an existing element is removed and the rest keep their order; an index past the end changes nothing |
| QuizEditor.RemoveQuestion | src/pages/Quiz/Quiz.jsx:96-102 | exactly that question goes and the rest keep their order; every other form field is untouched |
| QuizEditor.UpdateQuestion | src/pages/Quiz/Quiz.jsx:62-68 | only the named field of that question changes; the other questions and every other form field are untouched |
| QuizEditor.UpdateQuestionUndo | src/pages/Quiz/Quiz.jsx:62-68 | writing back the field's old value restores the form; the total changes only for a marks edit, and then by the difference |
| QuizEditor.TotalMarksAt | src/pages/Quiz/Quiz.jsx:128-130 | replacing one question changes the total by the difference of the two questions' marks |
| QuizEditor.UpdateOption | src/pages/Quiz/Quiz.jsx:70-78 | only option `o` of question `q` changes; the option count, the question's other fields, the other questions and the form fields are kept |
| QuizEditor.UpdateOptionUndo | src/pages/Quiz/Quiz.jsx:70-78 | writing back the option's old text restores the form, and an option edit never changes the total |
| QuizEditor.AddOption | src/pages/Quiz/Quiz.jsx:104-111 | an empty option is appended to that question; its other fields, the other questions and the form fields are kept |
| QuizEditor.AddThenRemoveOption | src/pages/Quiz/Quiz.jsx:104-126 | removing the option just added restores the form, under both the written and the intended removal, and adding an option keeps the total |
| QuizEditor.RemoveOption | src/pages/Quiz/Quiz.jsx:113-126 | as written: the option goes; the correct index is reset to 0 only when it no longer fits, and is otherwise not moved; the question's other fields, the other questions and the form fields are kept |
| QuizEditor.RemoveOptionChangesCorrectAnswer | src/pages/Quiz/Quiz.jsx:113-126 | removing an option before the correct one makes another option correct |
| QuizEditor.RemoveOptionShifted | src/pages/Quiz/Quiz.jsx:113-126 | as intended: the same option stays correct whenever the removed one was not it; removing the correct one sets option 0 correct; an out-of-range option removes nothing and resets the index to 0 only when it was already out of range; the question's other fields, the other questions and the form fields are kept |
| QuizEditor.TotalMarksAppend | src/pages/Quiz/Quiz.jsx:128-130 | the total over a concatenation is the sum of the totals |
| QuizEditor.TotalMarksNonNegative | src/pages/Quiz/Quiz.jsx:128-130 | non-numeric marks count as 0, and non-negative marks give a non-negative total |
| QuizEditor.TotalMarksAfterEdits | src/pages/Quiz/Quiz.jsx:80-130 | adding a question keeps the total; removing one subtracts its marks |
| QuizEditor.SubmitPayload | src/pages/Quiz/Quiz.jsx:132-142 | the form's fields are sent with `totalMarks` recomputed from the questions |
| QuizEditor.EditForm | src/pages/Quiz/Quiz.jsx:28-36 | falsy fields of the quiz being edited take their defaults: "", "", no questions, 30 minutes, unpublished; `QuizEditor.SaveAndReopen` relates it to the saved payload |
| QuizEditor.EmptyQuizDefaults | src/pages/Quiz/Quiz.jsx:30-36 | a quiz with nothing set opens as an empty 30-minute unpublished form |
| QuizEditor.SaveAndReopen | src/pages/Quiz/Quiz.jsx:28-36 | saving a form and editing the saved quiz reopens the same form, except that a duration of 0 reopens as 30 |
| Login.TwoAtsNotEmail | src/pages/Login/Login.jsx:23 | a string with two `@` is rejected by the e-mail pattern |
| Login.SpaceNotEmail | src/pages/Login/Login.jsx:23 | a string with white space is rejected by the e-mail pattern |
| Login.ValidateEmail | src/pages/Login/Login.jsx:23 | the scan accepts exactly the strings of the pattern: one `@` that is not first, no white space, and after the `@` a dot that is neither right after it nor last |
| Login.TrimIdentityOnValid | src/pages/Login/Login.jsx:33-40 | an accepted e-mail equals its trim, so the sent credentials carry it unchanged |
| Login.Submit | src/pages/Login/Login.jsx:25-42 | an empty field stops the submission; otherwise a malformed e-mail stops it; otherwise the e-mail and password are sent as typed |
| Login.OnLoginReply | src/pages/Login/Login.jsx:46-62 | a reply without user or token changes nothing; otherwise the user and both tokens are stored and the page goes to `/dashboard` |
| Login.LoginStoresResponseTokens | src/pages/Login/Login.jsx:46-62 | the stored tokens are the login response's access and refresh tokens |
| Login.CollectErrorsSpec | src/pages/Login/Login.jsx:69-77 | each field shows the last message on its path; `general` lists every other message, in order, each followed by a space |
| Login.OnLoginError | src/pages/Login/Login.jsx:64-90 | field entries take precedence, then `data.message`, then the generic toast |
| Register.BuildPayload | src/pages/Register/Register.jsx:20-26 | name, e-mail and phone are trimmed; the password is kept as typed; the role defaults to "student" |
| Register.PayloadStable | src/pages/Register/Register.jsx:20-26 | building the payload from a built payload changes nothing |
| Register.Submit | src/pages/Register/Register.jsx:29-36 | an empty name, e-mail or password stops before any request; otherwise the payload is posted |
| Register.BlankNameRejected | src/pages/Register/Register.jsx:21-31 | a name of white space only is rejected |
| Register.BlankPasswordSent | src/pages/Register/Register.jsx:23-36 | a password of white space only still reaches the server |
| Register.CollectErrorsSpec | src/pages/Register/Register.jsx:45-55 | each field shows the last message on its path, using a list path's first element; `general` shows the last non-empty unmapped message |
| Register.OnRegisterError | src/pages/Register/Register.jsx:45-65 | field entries first; `data.message` only when there is no entry array; else the generic toast |
| Register.EntriesShadowMessage | src/pages/Register/Register.jsx:45-63 | with an entry array present, `data.message` is never shown |
| LessonsPage.ListingRequest | src/pages/Lessons/Lessons.jsx:11-14 | the page asks for the current page with page size 6, and the server reads back exactly that page and size |
| LessonsPage.TotalPages | src/pages/Lessons/Lessons.jsx:17 | without `meta` there is one page; with `meta` its `totalPages` is used as is, even when undefined |
| LessonsPage.Prev | src/pages/Lessons/Lessons.jsx:65-67 | back one page only from a page after the first |
| LessonsPage.Next | src/pages/Lessons/Lessons.jsx:69-71 | on one page only below a defined total |
| LessonsPage.ClicksStayInRange | src/pages/Lessons/Lessons.jsx:10-71 | from page 1, any sequence of clicks stays within [1, max(1, totalPages)] |
| LessonsPage.SinglePageWithoutMeta | src/pages/Lessons/Lessons.jsx:17 | without `meta` no click leaves page 1 |
| LessonsPage.Seconds | src/pages/Lessons/Lessons.jsx:98 | the remainder has the sign of the duration and is smaller than 60 in size |
| LessonsPage.DurationSplit | src/pages/Lessons/Lessons.jsx:98 | a non-negative duration is exactly 60 times the minutes plus the seconds, with seconds in [0, 60) |
| LessonsPage.NegativeDurationExample | src/pages/Lessons/Lessons.jsx:98 | for -61 seconds the display shows -2m -1s, which does not add up |
| Sidebar.NormalizeRole | src/pages/Dashboard/Sidebar/Sidebar.jsx:14 | the lower-cased `role`, else the lower-cased `Role`, else "" |
| Sidebar.NavLinks | src/pages/Dashboard/Sidebar/Sidebar.jsx:17-29 | a student gets two links, "student" and "course-management"; any other role gets the five admin links, in order to the dashboard root, "course-management", "batch", "Quiz" and "Lessons"; no two links share a target or a caption |
| Sidebar.RoutePath | src/pages/Dashboard/Sidebar/Sidebar.jsx:45 | an empty target is `/dashboard`; any other is `/dashboard/` followed by it |
| Sidebar.RoutePathInjective | src/pages/Dashboard/Sidebar/Sidebar.jsx:45 | distinct targets give distinct routes |
| Sidebar.AtMostOneActive | src/pages/Dashboard/Sidebar/Sidebar.jsx:45-46 | for any path and role, at most one link is highlighted |
| DashboardLayout.Redirect | src/pages/Dashboard/Layout/DashboardLayout.jsx:11-18 | a replacing redirect to `/dashboard/student` happens exactly when the path is `/dashboard` and the role is "student" |
| DashboardLayout.RedirectSettles | src/pages/Dashboard/Layout/DashboardLayout.jsx:14-18 | the redirect target does not redirect again |
| DashboardLayout.RedirectHighlightsMyCourses | src/pages/Dashboard/Layout/DashboardLayout.jsx:14-18 | after the redirect, the student's sidebar highlights exactly the "My Courses" link |
| Text.TrimSpec | src/redux/features/courses/coursesApi.js:52-53 | `trim` yields a contiguous piece without white space at either end, and it is empty exactly when the input is all white space |
| Text.TrimIdempotent | src/pages/Register/Register.jsx:21-24 | trimming twice equals trimming once |
| Text.Includes | src/pages/Batch/Batch.jsx:188-190 | `includes` holds exactly when the text occurs at some offset |
| Text.ParsePadStart2 | src/component/quiz/Quiz.jsx:62 | zero-padding to two characters keeps the value of a digit string |
| Js.RoundDiv | src/pages/Dashboard/StudentDashboard.jsx:26-28 | `Math.round(a / b)` for `b > 0` is the integer nearest the quotient, halves rounding up |

## Left out

- Rendering, styling and animation are left out. This covers JSX markup,
  Tailwind classes, GSAP timelines, toasts, `alert` and `confirm` dialogs,
  skeleton loaders and the chart component. They change no state the model
  tracks; a dialog that gates an action is treated as confirmed.
- Persistence I/O of `redux-persist` is left out (storage, the
  `REHYDRATE` timing, serialisability checks). Only the whitelist effect is
  modelled, in `Store`.
- Concurrency is left out. Two requests that hit a 401 at the same time each
  run their own refresh. The wrapper is modelled one invocation at a time,
  with the session passed in.
- Timers are left out. The quiz timer is one `Tick` per second; the interval
  itself and its clean-up are not modelled. Debounced search inputs are not
  modelled either.
- Date parsing and the current time are left out. Batch start and end dates
  and "now" are integers supplied by the caller.
- Floating point is left out. `Math.round` over doubles is modelled as exact
  rational rounding. Marks, prices and durations are integers.
- Percent-encoding by `URLSearchParams` is a function parameter, not a
  definition.
- `toLowerCase` is modelled on ASCII letters only. Other scripts' case
  mappings are not covered.
- `CoursePage.Normalize`: the `assignment` and `quiz` fields of a lesson are
  not carried, because no modelled operation reads them. The assignment
  submission form is not modelled.
- The batch list is local demo data. `enrollments` is modelled as a count,
  `enrolled`. A batch without an `enrollments` array is not modelled: in
  `calculateStats` its optional chaining counts it as not full, and the
  filter would throw.
- The hooks `useGetStudentEnrollmentsQuery` and `useDeleteLessonMutation` are
  left out. The pages import them from modules that do not define them, so
  the lesson delete button and the enrollments fetch have no endpoint to
  model.
- `CourseDetails`, `DashboardOverview`, `Dashbar`, `batchApi`,
  `enrollmentsApi`, the course modals, `Controls`, `CourseCard` and
  `StatsCards` are not part of this model.
- Tag ids are modelled as text only. `getQuizzes` uses `_id || id` as it
  comes; a numeric id is not distinguished from its decimal text. RTK Query
  looks an invalidated id up by its string form, so an invalidated `null` id
  is the text "null"; a `null` provided id is filed under the reserved key.
- QuizEditor.UpdateQuestion, QuizEditor.UpdateOption, QuizEditor.AddOption,
  QuizEditor.RemoveOption and QuizEditor.RemoveOptionShifted require the
  question (and, for `UpdateOption`, the option) to exist. The form only
  calls them for rendered questions and options. An out-of-range index would
  throw or leave a hole in a JavaScript array, and that path is not
  modelled.
- QuizPlayer.SelectAnswer and QuizPlayer.JumpTo require the question index
  to lie within the quiz. The component reads `quiz[currentQuestion]._id`
  and draws one dot per question, so it cannot produce another index.
- LessonsPage.DurationSplit is proved for non-negative durations only.
  `LessonsPage.NegativeDurationExample` shows that a negative duration splits
  into parts that do not add up.
- NewTokens: a truthy token that is not a string (a number, say) passes the
  check at baseApi.js:41 and would be stored, but the session holds tokens as
  text, so the model treats such a reply as missing its tokens and logs out.
- TransformLoginResponse: a missing `data` is modelled as a failed transform
  (the mutation rejects). The error value RTK Query then hands to the login
  page's `catch` is not modelled.
- `LessonApi.GetLessons`: a `null` page or size would be interpolated as
  "null"; only omitted values, which take the defaults, are modelled.
- The routing `Decode` functions are the server's reading of a request, as
  far as the client's requests determine it. The server's own routing table
  is not part of this model.
- The 32-bit limits of JavaScript numbers are not modelled. Counts, pages and
  marks are unbounded integers.

## Findings

| source | as written | input that shows it | evidently intended | confidence | as-written member | corrected member |
|---|---|---|---|---|---|---|
| src/pages/Dashboard/CoursePage.jsx:138-142 | on failure the toggled lesson is set to `!prevCompleted`, which is the value the optimistic update already wrote | ticking an open lesson while the progress request fails: the lesson stays ticked | the lesson gets `prevCompleted` back | high (not executed) | CoursePage.RevertAsWrittenKeepsOptimistic | CoursePage.RevertUndoesToggle |
| src/pages/Dashboard/CoursePage.jsx:108-120 | ticking any lesson reports progress 100, whatever the others are | two open lessons, tick the first: 100 is reported and sent | the completed share, 50 | medium (not executed) | CoursePage.ToggleRequestOvershoots | CoursePage.ProgressAgreesOnUntick |
| src/pages/Quiz/Quiz.jsx:113-126 | removing an option keeps `correctAnswerIndex` unless it falls off the end, so the index now names a different option | options a, b, c, d with c correct; remove a: d is marked correct | the index shifts down by one when an earlier option is removed | high (not executed) | QuizEditor.RemoveOptionChangesCorrectAnswer | QuizEditor.RemoveOptionShifted |
