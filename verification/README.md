# Session login gateway — a Dafny model

A model of the request-handling logic of a small Express application that
logs users in against a fixed in-memory list, keeps the logged-in user in a
server-side session, guards its home page with a login check, and logs users
out by destroying the session.

The model is a state machine. The state is the session's `user` field: either
absent or a snapshot `{id, username}`. Each route is a pure transition
`Step(session, request) -> Outcome(session, response)`, where a response is a
redirect to one of four targets (`/home`, `/login`, `/login?error=1`,
`/login?failed=1`) or a rendered page. A rendered page is described by what it
shows: which of the two messages the login form carries, and whose name the
home page greets.

Modules, leaf first:

- `wrappers.dfy` — `Option`.
- `http.dfy` — parsed request fields (`Param`: absent, a string, or a nested
  array/object value from the extended parser) and their JavaScript
  truthiness, redirect targets and their URLs, pages, responses.
- `users.dfy` — the seed list and the `users.find` lookup with its exact,
  case-sensitive predicate on username and password.
- `server.dfy` — the `requireAuth` guard, the five
  routes, `Step`, and what a browser requests when it follows a redirect.
- `scenarios.dfy` — runs of several requests (`Run`), a reference definition
  of the session a run leaves (`Latest`: the effect of the last request that
  has one), and lemmas over request sequences.

Facts about the program that shape the model:

- It has no roles and no password hashing.
- Session IDs, their signed cookies and any cookie lifetime come from the
  session library (`server.js:10-15`), which is abstracted as the optional
  `user` snapshot of one session.
- On a destroy error, `POST /logout` redirects to `/home`.
- Passwords are compared by plain string equality.

## Model

| member | source | states |
|---|---|---|
| Http.UrlLiterals | server.js:33 | the four abstract targets are exactly the URLs the routes redirect to: `/home`, `/login`, `/login?error=1`, `/login?failed=1` |
| Http.UrlInjective | server.js:33 | distinct targets have distinct URLs, so a client can tell every redirect apart |
| Users.Find | server.js:85 | the lookup finds a record iff some record has exactly the submitted username and password, and what it finds is the first such record in list order |
| Users.SeedUsernamesUnique | server.js:19-22 | no two seed records share a username |
| Users.FindUnique | server.js:85 | in a list with unique usernames, at most one record matches, and the lookup returns it |
| Users.SeedAtMostOneMatch | server.js:19-22 | in the seed list, any two matching positions for the same submission are the same position |
| Server.SnapshotIgnoresPassword | server.js:89-93 | the snapshot stored on login is the same whatever the record's password is, so no password reaches the session |
| Server.RootAgreesWithGuard | server.js:41-47 | `GET /` sends the visitor home exactly when the login guard would let a request through, and to the login form exactly when it would not |
| Server.RequireAuth | server.js:27-35 | the guard lets the request through iff the session has a user, and otherwise redirects to `/login?error=1` |
| Server.HandleRoot | server.js:41-47 | `GET /` never changes the session and redirects to `/home` iff a user is present, to `/login` iff none is |
| Server.HandleLoginForm | server.js:50-52 | `GET /login` leaves the session alone; the login-required message shows iff `error` is truthy, the wrong-credentials message iff `failed` is truthy, each independently of the other |
| Server.HandleLogin | server.js:81-99 | `POST /login` redirects home iff some seed record matches, storing the snapshot of the first match; otherwise it redirects to `/login?failed=1` and leaves the session as it was |
| Server.HandleHome | server.js:104-115 | `GET /home` renders iff a user is present and greets that user, else redirects to `/login?error=1`; the session is unchanged either way |
| Server.HandleLogout | server.js:126-135 | a successful destroy leaves no user and redirects to `/login`; a destroy error redirects to `/home` with the session kept |
| Server.Step | server.js:38-135 | only `POST /login` and a successful `POST /logout` can change the session, and a page is rendered only by `GET /login` or by `GET /home` with a user present |
| Server.FailedLoginsIndistinguishable | server.js:85-99 | any two failing submissions, such as an unknown name or a known name with a wrong password, give the identical outcome: session untouched, redirect to `/login?failed=1` |
| Server.WrongPasswordLooksLikeUnknownUser | server.js:96-99 | `user1` with a wrong password and a name not in the list give the same outcome |
| Server.LoginWithSeedCredentials | server.js:85-95 | submitting a seed record's own username and password stores exactly that record's snapshot and redirects home |
| Server.RedirectsCarryTheirMessage | server.js:51-52 | following the redirect of a failed login shows only the wrong-credentials message; following the guard's redirect shows only the login-required message |
| Server.LogoutThenHome | server.js:126-135 | after a successful logout, `GET /home` redirects to `/login?error=1` |
| Scenarios.StepFollowsEffect | server.js:87-99 | what a request does to the session does not depend on the session it meets: install a snapshot, clear, or keep |
| Scenarios.RunIsLatest | server.js:81-135 | after any run of requests the session is the one the last login or successful logout installed, or the starting one if there was none |
| Scenarios.NoLoginNoNewUser | server.js:87-93 | a run without a successful login ends with the starting session or with none: it never installs a new user |
| Scenarios.LogoutSticks | server.js:126-135 | after a successful logout followed by no successful login, the session holds no user |
| Scenarios.HomeAfterLogoutRedirects | server.js:27-35 | whatever came before, a successful logout and no later login make the next `GET /home` redirect to `/login?error=1` |
| Scenarios.StepKeepsSeedSession | server.js:90-93 | every step keeps the session empty or equal to some seed record's snapshot |
| Scenarios.RunKeepsSeedSession | server.js:104-115 | starting from an empty or seed session, every home page a run renders greets the username of some seed record |
| Scenarios.User1Scenario | server.js:20 | logging in as `user1`, visiting home, logging out and visiting home again gives: home, welcome `user1`, login, login-required |

## Left out

- Application setup, body parsing and server start-up (`server.js:1-7`, `server.js:139-141`): framework plumbing and I/O.
- Session library configuration: secret, cookie signing, `resave`, `saveUninitialized`, cookie flags (`server.js:10-15`). The session library is a foreign component; it is abstracted as the optional `user` snapshot of a single session.
- Cookies and several browsers: the model follows one session. Requests from different clients touch different sessions and do not interact in this code.
- The asynchronous destroy callback (`server.js:128`): modelled as a synchronous step whose error outcome is a boolean input of the request.
- Server.HandleLogout: on a destroy error the model keeps the session as it was. The store's real state after a failed destroy is not visible to this code, since the library removes the request's session before the store reports.
- HTML bodies of the two pages (`server.js:54-77`, `server.js:108-122`): only which messages appear and which username is greeted are modelled.
- Requests to paths or methods that no route handles: the framework answers those; they never reach this code.
- Roles and password hashing: the program has neither.
- Session ID generation, cookie signing and cookie lifetime: the session library does these (`server.js:10-15`); the model sees only the session's `user` field.
