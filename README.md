# Session-gated CRUD client, modelled in Dafny

A single-page application whose core is a session flag and the pages that
read and write it. The application shell shows an interstitial while the
startup session check runs. After that, a route table either renders a
page or redirects, depending on the flag. The todo page keeps its list in
step with the server by patching it in place. The user-details page
validates a five-field form and refetches its table after each change. The
login and signup pages set busy flags around their requests, and login
sets the session flag.

Every backend call is a parameter of the handler that awaits it: a
`Response` that is `Ok(body)` or `Err(message)`, where `message` is the
server's optional `message` field. Handlers return the `Request` they send,
the navigation target, the alert text, and whether their promise rejects
without a `catch`. They do not perform I/O.

Files, one module each:

- `common.dfy` (`Common`): responses, requests, JavaScript white space, `trim()`, and `message || fallback`.
- `app_routes.dfy` (`AppRoutes`): the shell. Pathnames are matched as the router does: trailing slashes are ignored and ASCII case is folded. It holds the decision function `Route` and `Settle`, which follows redirects.
- `auth_context.dfy` (`AuthContext`): the `AuthProvider` class with `auth`, `loading` and the one-shot refresh.
- `login_page.dfy`, `signup_page.dfy`: these handlers await a request between two state changes, so issuing and settling are two methods.
- `todo_page.dfy` (`TodoPage`): the pure `map`/`filter` transforms, their lemmas, and the `Todo` class.
- `user_details_page.dfy` (`UserDetailsPage`): the email pattern as a specification predicate with an executable matcher, `Validate`, and the `UserDetails` class.

## Model

| member | source | states |
|---|---|---|
| `AppRoutes.StripTrailingSlashes` | src/pages/App.jsx:28-84 | the router ignores a run of trailing slashes: the result is a prefix of the path that is empty or ends in another character, and everything cut is `/` |
| `AppRoutes.Lower` | src/pages/App.jsx:28-84 | route patterns are compared case-insensitively: lowering keeps the length and every `/` (and adds none), leaves no upper-case ASCII letter, and returns a path without upper-case letters unchanged |
| `AppRoutes.Match` | src/pages/App.jsx:28-84 | the `<Routes>` selection: the path without trailing slashes, ASCII-lowercased, is compared with `""` (root), `/login`, `/signup`, `/todo`, `/userdetails`, `/users` and `/users/create` in turn; then with `/users/edit/` followed by one non-empty segment, whose original-case text becomes `id`; anything else falls to `*`. The contract states that only an all-slash path selects the root route, and that an edit `id` is always one non-empty segment |
| `AppRoutes.Settle` | src/pages/App.jsx:14-83 | follows `<Navigate>` redirects up to a budget; any page it reaches is the interstitial exactly while `loading`, and once loaded it is a protected page exactly when `auth` |
| `AppRoutes.Route` | src/pages/App.jsx:14-83 | while `loading` every path gives the interstitial and never a redirect, and only then; once loaded, a protected page renders if and only if `auth`; every redirect goes to `/`, `/login`, `/users` or `/userform` |
| `AppRoutes.Protected` | src/pages/App.jsx:23-25 | renders its child exactly when `auth`, otherwise navigates to `/login` |
| `AppRoutes.RouteAtRoot` | src/pages/App.jsx:29 | `/` always redirects to `/login` |
| `AppRoutes.RouteAtLogin` | src/pages/App.jsx:31-34 | `/login` redirects to `/users` when `auth`, otherwise renders the login page |
| `AppRoutes.RouteAtSignup` | src/pages/App.jsx:35-38 | `/signup` redirects to `/userform` when `auth`, otherwise renders the signup page |
| `AppRoutes.RouteAtTodo` | src/pages/App.jsx:41-48 | `/todo` renders the todo page when `auth`, otherwise redirects to `/login` |
| `AppRoutes.RouteAtUsers` | src/pages/App.jsx:57-64 | `/users` renders the user table when `auth`, otherwise redirects to `/login` |
| `AppRoutes.RouteAtUserform` | src/pages/App.jsx:83 | `/userform` matches no route of the table, so the catch-all redirects it to `/` |
| `AppRoutes.ProtectedPathGate` | src/pages/App.jsx:41-80 | any protected path renders its page when `auth` and redirects to `/login` when not |
| `AppRoutes.UnmatchedPathGoesHome` | src/pages/App.jsx:83 | a path outside the table redirects to `/` |
| `AppRoutes.EditRouteAccepts` | src/pages/App.jsx:73-80 | `/users/edit/` followed by any one non-empty segment selects the edit route, with that segment as `id` |
| `AppRoutes.EditRouteShape` | src/pages/App.jsx:73-80 | conversely, a path that selects the edit route is the prefix `/users/edit/` (up to case), then an `id` that is one non-empty segment, then only slashes |
| `AppRoutes.SettleAtUsers` | src/pages/App.jsx:23-64 | from `/users`, one redirect at most lands on the user table when `auth` and on the login page when not |
| `AppRoutes.SettleAtLogin` | src/pages/App.jsx:31-34 | from `/login`, one redirect at most lands on the user table when `auth` and on the login page when not |
| `AppRoutes.SettleAtRoot` | src/pages/App.jsx:29 | from `/`, two redirects at most reach the same page as from `/login` |
| `AppRoutes.SettleAtUserform` | src/pages/App.jsx:83 | from `/userform`, three redirects at most pass the catch-all, `/` and `/login` and reach that same page |
| `AppRoutes.SettlesWithinFourRedirects` | src/pages/App.jsx:29-83 | once loaded, following redirects from any path reaches a rendered page within four redirects; that page is protected if and only if `auth`; without `auth` it is the login or the signup page |
| `AppRoutes.SignupChainNeedsFourRedirects` | src/pages/App.jsx:35-38 | four is the least bound: with `auth`, `/signup` reaches the user table after four redirects and reaches no page after three |
| `AppRoutes.LoadingSettlesOnInterstitial` | src/pages/App.jsx:14-20 | while `loading`, every path settles at once on the interstitial, whatever the budget |
| `Common.BlankIffAllSpace` | src/pages/Todo.jsx:28 | `!s.trim()` holds exactly when every character of `s` is JavaScript white space |
| `Common.MessageOr` | src/pages/Login.jsx:32 | the server's message when present and non-empty, otherwise the fallback text |
| `AuthContext.AuthProvider.constructor` | src/context/AuthContext.jsx:10-11 | a new session starts unauthenticated and loading, with no request sent |
| `AuthContext.AuthProvider.RunRefreshEffect` | src/context/AuthContext.jsx:13-17 | the mount effect sends `GET /auth/refresh` the first time only; later runs send nothing and change nothing |
| `AuthContext.AuthProvider.SettleRefresh` | src/context/AuthContext.jsx:18-28 | success sets `auth` true and failure sets it false; on both paths `loading` becomes false and the check is settled, and `Valid()` keeps it false from then on |
| `AuthContext.AuthProvider.SetAuth` | src/context/AuthContext.jsx:32 | the exposed setter changes `auth` only; `loading` and the refresh state stay as they were |
| `LoginPage.Login.constructor` | src/pages/Login.jsx:11 | the page starts not busy |
| `LoginPage.Login.HandleSubmit` | src/pages/Login.jsx:23-26 | while the login request is outstanding the page is busy (`loading`, `submitting`) and the request is `POST /auth/login` |
| `LoginPage.Login.SettleSubmit` | src/pages/Login.jsx:26-36 | success sets `auth` and navigates to `/userform`; failure leaves `auth` unchanged and alerts the server message, else "Invalid credentials"; afterwards `loading` and `submitting` are both false |
| `LoginPage.LoginLandsOnUserTable` | src/pages/Login.jsx:23-36 | a visitor whose startup check failed submits the form; the login succeeds, the handler navigates to `/userform`, and following the shell's redirects from there lands on the user table |
| `SignupPage.Signup.constructor` | src/pages/Signup.jsx:6-9 | empty fields, not busy |
| `SignupPage.Signup.HandleSignup` | src/pages/Signup.jsx:12-24 | with any field empty it alerts, sends nothing and leaves `loading` as it was; otherwise it sets `loading` and posts `/auth/signup` |
| `SignupPage.Signup.SettleSignup` | src/pages/Signup.jsx:25-32 | success navigates to `/login`; failure alerts the server message, else "Signup failed"; `loading` ends false on both paths |
| `TodoPage.ReplaceById` | src/pages/Todo.jsx:36 | keeps length and order; each element whose `_id` is `id` becomes the response, and every other element is unchanged |
| `TodoPage.RemoveById` | src/pages/Todo.jsx:41 | the result holds exactly the elements whose `_id` is not `id`, and is no longer than the input |
| `TodoPage.RemoveByIdConcat` | src/pages/Todo.jsx:41 | removal acts on each part of a concatenation separately, so the survivors keep their relative order |
| `TodoPage.RemoveByIdLength` | src/pages/Todo.jsx:41 | the length drops by exactly the number of elements carrying `id` |
| `TodoPage.RemoveAbsentId` | src/pages/Todo.jsx:41 | a list in which no element carries `id` is returned unchanged |
| `TodoPage.RemoveByIdIdempotent` | src/pages/Todo.jsx:39-42 | deleting the same id a second time leaves the list unchanged |
| `TodoPage.AppendKeepsUniqueIds` | src/pages/Todo.jsx:30 | appending keeps `_id`s unique if and only if the new `_id` is not already in the list |
| `TodoPage.ReplaceKeepsUniqueIds` | src/pages/Todo.jsx:36 | a replacement that keeps its `_id` keeps `_id`s unique |
| `TodoPage.RemoveKeepsUniqueIds` | src/pages/Todo.jsx:41 | filtering keeps `_id`s unique |
| `TodoPage.ToggleHitsOnePosition` | src/pages/Todo.jsx:34-37 | with unique `_id`s, toggling the todo at position k puts the response at k, leaves one element with that id, and leaves all others in place |
| `TodoPage.Todo.constructor` | src/pages/Todo.jsx:6-9 | empty list, empty input, no todo being edited |
| `TodoPage.Todo.FetchTodos` | src/pages/Todo.jsx:17-25 | success replaces the list with the server's; failure leaves the list and navigates to `/login` |
| `TodoPage.Todo.AddTodo` | src/pages/Todo.jsx:27-32 | blank text sends nothing and changes nothing; otherwise on success the list becomes the old list plus the record and the text is cleared, and on failure the promise rejects with nothing changed |
| `TodoPage.Todo.ToggleTodo` | src/pages/Todo.jsx:34-37 | success replaces by id; failure rejects with the list unchanged |
| `TodoPage.Todo.DeleteTodo` | src/pages/Todo.jsx:39-42 | success removes by id; failure rejects with the list unchanged |
| `TodoPage.Todo.StartEdit` | src/pages/Todo.jsx:44-47 | sets the todo being edited and the edit text |
| `TodoPage.Todo.CancelEdit` | src/pages/Todo.jsx:119 | closes the editor and leaves the edit text as it was |
| `TodoPage.Todo.UpdateTodo` | src/pages/Todo.jsx:49-59 | blank edit text is a no-op; otherwise on success it replaces by id and clears the editing id and text; on failure the list and the editing state are unchanged |
| `TodoPage.Todo.HandleLogout` | src/pages/Todo.jsx:61-64 | posts `/auth/logout` and on success navigates to `/login`; the session's `auth` is never touched; failure rejects without navigating |
| `TodoPage.Todo.HandleLogoutClearingSession` | src/pages/UserDetails.jsx:79-86 | the corrected todo logout: success clears `auth` and navigates to `/login`; failure changes nothing |
| `TodoPage.LogoutFromTodoAsWritten` | src/pages/Todo.jsx:61-64 | from an accepted session on the todo page, the written logout lands on the user table and not on the login page |
| `TodoPage.LogoutFromTodoCorrected` | src/pages/Todo.jsx:61-64 | the same visit with the corrected logout lands on the login page |
| `UserDetailsPage.MatchesEmail` | src/pages/UserDetails.jsx:41 | the executable check accepts exactly the strings of `^\S+@\S+\.\S+$`: no white space, and a split `a@b.c` with all three parts non-empty |
| `UserDetailsPage.EmailSplitMatches` | src/pages/UserDetails.jsx:41 | every `a@b.c` built from non-empty parts without white space is accepted |
| `UserDetailsPage.Validate` | src/pages/UserDetails.jsx:35-46 | accepted if and only if all five fields are non-empty and the email matches; an empty field gives "All fields are required", and otherwise a bad email gives "Invalid email" |
| `UserDetailsPage.UserDetails.constructor` | src/pages/UserDetails.jsx:7-15 | empty form, empty table, nothing being edited |
| `UserDetailsPage.UserDetails.FetchUsers` | src/pages/UserDetails.jsx:23-33 | success replaces the table; failure keeps it and navigates nowhere |
| `UserDetailsPage.UserDetails.HandleSubmit` | src/pages/UserDetails.jsx:48-63 | an invalid form sends nothing and changes nothing; a valid one is `PUT /userdetails/{editingId}` when an id is set, otherwise `POST /userdetails`, with the form as body; success resets the form, clears the id and issues a refetch; failure keeps both |
| `UserDetailsPage.UserDetails.HandleEdit` | src/pages/UserDetails.jsx:65-68 | the form becomes the record's fields and the editing id becomes its `_id` |
| `UserDetailsPage.UserDetails.HandleDelete` | src/pages/UserDetails.jsx:70-77 | sends `DELETE /userdetails/{id}` and issues a refetch exactly on success; the page state is untouched |
| `UserDetailsPage.UserDetails.HandleLogout` | src/pages/UserDetails.jsx:79-86 | success clears `auth` and navigates to `/login`; failure leaves `auth` unchanged and does not navigate |
| `UserDetailsPage.EditThenSubmit` | src/pages/UserDetails.jsx:48-68 | editing a valid record with an `_id` and saving it puts the record to its own URL, and the reset form would then be rejected; an invalid record sends nothing |

## Left out

- Markup, styling, `alert` display and console logging. Alerts appear only as the text a handler would show.
- Transport: the HTTP client, base URLs, cookies and status codes. Each call is an outcome parameter. Request bodies are carried only for login (the pending credentials) and for the user-details form. The todo bodies `{text}` and `{text: editingText}` are described but not carried.
- Concurrency: interleaved requests, stale closures over `todos`, and responses that arrive after a page unmounts. Each handler settles before the next event. Login and signup allow one request in flight at a time.
- Router details: percent-decoding of pathnames, case folding beyond ASCII, and basenames. Pathnames are assumed to start with `/`, as browser locations do.
- React's development-only StrictMode double mount, which runs the refresh effect twice. The model follows the single production mount.
- The mount effects that call `fetchTodos` and `fetchUsers`. The fetch handlers are modelled; the effect that triggers them is not.
- The form-library schema in src/pages/Login.jsx:18-21. `Login.HandleSubmit` stands for the call the library makes once that schema passes.
- Controlled-input `onChange` setters (new-todo text, edit text, form fields, signup fields). The model reads the fields as they stand.
- `UserDetailsPage.UserDetails.HandleEdit`: copies the five form fields only; the extra fields of the record object (such as `_id`) that the source also sends back are not modelled.
- `UserDetailsPage.Validate`: `age` is text here. A server record with a numeric age of 0 would fail `!age` in the source; the model cannot express this.
- A failed todo-list fetch does not clear `auth`: the code (src/pages/Todo.jsx:21-24) only navigates to `/login`, and the model follows it.
- src/pages/UserForm.jsx, src/pages/UserTable.jsx, src/components/Navbar.jsx and src/main.jsx are not part of this model.

## Findings

| source | as written | input that shows it | evidently intended | confidence | as-written member | corrected member |
|---|---|---|---|---|---|---|
| src/pages/Todo.jsx:61-64 | logout posts `/auth/logout` and navigates to `/login` without clearing `auth` | an accepted session on `/todo` whose logout succeeds: `auth` is still true, so the shell redirects `/login` to `/users` and shows the user table | clear `auth` before navigating, as src/pages/UserDetails.jsx:82 does, and land on the login page | not executed; high | `TodoPage.LogoutFromTodoAsWritten` (over `TodoPage.Todo.HandleLogout`) | `TodoPage.LogoutFromTodoCorrected` (over `TodoPage.Todo.HandleLogoutClearingSession`) |
