# Salon academy record store, in Dafny

The backend of the training academy keeps one global store in memory: a
list of admin accounts `{id, password, name}` and a list of candidate
accounts `{id, applicationNumber, password, name, joinedAt,
completedTechniques, customerSessions}`. Each HTTP route is a table
operation on those two lists, and the whole store is written to a JSON file
after every successful change. This project models that store and its
routes, with the HTTP, file and clock layers taken out:

- `find.dfy` (module `Find`): the `Array.prototype.find` scan every route
  uses. `FindFirst` returns the position of the first match; `IsFirst` and
  `NoneMatch` specify it.
- `decimal.dfy` (module `Decimal`): decimal rendering of the millisecond
  clock, used for the `u_<ms>` candidate ids, with its inverse `Parse` and
  the round trip between them.
- `records.dfy` (module `Records`): the two account records; the
  password-free candidate view `UserView` and the projection `Hide`; the
  lookup conditions the routes pass to `find`; the key and uniqueness
  predicates; the outcome type `Result` with `Unauthorized`, `Duplicate`
  and `NotFound` and the routes' exact messages.
- `queries.dfy` (module `Queries`): the read-only routes `/api/login`,
  `/api/users` and `/api/users/:id`, as functions of the two lists.
- `store.dfy` (module `RecordStore`): the `Store` class holding `admins`
  and `users`, and the routes that change them in place: `/api/register`,
  `/api/reset-password`, `/api/training/complete` and
  `/api/session/complete`. Ghost fields `savedAdmins` and `savedUsers` stand
  for the database file. Every successful change ends with `SaveData`, so
  the file equals the store afterwards. Every failed request leaves the
  store, and the file, unchanged.
- `properties.dfy` (module `Properties`): how the routes combine. A login
  right after a registration or a password reset; a lookup after a logged
  technique or session; read routes that do not depend on passwords. It
  also holds one client scenario, checked against the method contracts
  alone.

Behaviour of the code that the model keeps:

- Only the exact role string `admin` selects the admin branch. Any other
  role string takes the candidate branch.
- Candidate login and candidate password reset match the given `id`
  against the application number OR the internal id. Get-user and the two
  append routes match the internal id only.
- Every lookup takes the first match in list order.
- A candidate's id is `u_` followed by the decimal clock reading, and its
  `joinedAt` is a second clock reading. Both readings are method
  parameters. Two registrations at different milliseconds get different
  ids (`NewUserIdInjective`). Two in the same millisecond get the same id,
  and the code does not check for that, so no uniqueness of candidate ids
  is claimed.
- Admin id uniqueness and application-number uniqueness are not assumed on
  entry, because the code does not enforce them for a store loaded from a
  file. Each mutating method instead keeps them when they held before
  (`old(KeysUnique()) ==> KeysUnique()`), and a fresh store starts with
  them.
- No route ever removes a record, reorders records, or changes an id, an
  application number or a join time (`AdminsKept`, `UsersKept`).

A successful candidate login answers with the candidate's record minus its
password and no role tag; only the admin answer carries one (index.js:62
against index.js:69-70). After a candidate's password reset, every other
password is refused only when the login key names a single account: one
candidate's application number may equal another candidate's internal id,
and then the key matches both.

## Model

| member | source | states |
|---|---|---|
| `Find.FindFirst` | index.js:67 | `find` yields the first position whose element satisfies the callback; it yields nothing exactly when no element does |
| `Find.FindFirstIs` | index.js:142 | any position shown to be the first match is the one `find` returns |
| `Decimal.ParseShow` | index.js:94 | the decimal digits written for a clock reading read back as that reading |
| `Decimal.ShowInjective` | index.js:94 | different clock readings are written as different digit strings |
| `Records.Hide` | index.js:69 | the password-free view loses only the password: the view plus the password rebuilds the account exactly |
| `Queries.Login` | index.js:55-75 | role `admin`: success iff some admin has both the id and the password, answering with the first such admin's id and name, else Unauthorized "Invalid Admin credentials"; any other role: success iff some candidate has the key as application number or id and the password, answering with the first such candidate's password-free view, else Unauthorized "Invalid Candidate credentials"; it reads and never changes the store |
| `Queries.ListUsers` | index.js:135-138 | the list has one view per candidate, same length and order, element i being candidate i without its password |
| `Queries.GetUser` | index.js:141-149 | the first candidate whose internal id matches, without its password; NotFound "User not found" exactly when no candidate has that id |
| `RecordStore.NewUserId` | index.js:94 | a new candidate id is `u_` followed by decimal digits that read back as the clock reading |
| `RecordStore.NewUserIdInjective` | index.js:94 | candidates registered at different milliseconds get different ids |
| `RecordStore.Store.constructor` | index.js:22-26 | a fresh store holds the single seeded admin `admin`/`admin`/`Administrator` and no candidates, is written to the file, and has unique keys |
| `RecordStore.Store.SaveData` | index.js:42-45 | the file is rewritten to equal the whole in-memory store, which does not change |
| `RecordStore.Store.Register` | index.js:78-107 | admin: a taken id is Duplicate "Admin ID already exists" with nothing changed, otherwise exactly one admin `{id, password, "Admin "+id}` is appended and saved; candidate: a taken application number is Duplicate "Application number already registered" with nothing changed, otherwise exactly one candidate with the clock id, the second clock reading, name "Candidate "+number and empty logs is appended, saved, and its id returned; key uniqueness is preserved |
| `RecordStore.Store.ResetPassword` | index.js:110-132 | success iff the account exists (admin by id; candidate by application number or id); only the first match's password changes, every other record and field stays; a miss is NotFound with the branch's message and changes nothing |
| `RecordStore.Store.CompleteTraining` | index.js:152-163 | success iff some candidate has that id; the technique is appended at the end of the first such candidate's completed techniques, and nothing else changes; an unknown id is NotFound "User not found" and changes nothing |
| `RecordStore.Store.CompleteSession` | index.js:166-177 | success iff some candidate has that id; the session is appended at the end of the first such candidate's customer sessions, and nothing else changes; an unknown id is NotFound "User not found" and changes nothing |
| `Properties.RegisterAdminThenLogin` | index.js:81-87 | after an admin registers with a fresh id, admin login with that id and password answers with the id and the name "Admin "+id |
| `Properties.RegisterCandidateThenLogin` | index.js:88-105 | after a candidate registers, candidate login with its application number and password succeeds, and it returns the new candidate's own view exactly when no older account accepts those credentials |
| `Properties.ResetAdminThenLogin` | index.js:113-118 | after an admin's password is reset, admin login with the new password succeeds for that admin |
| `Properties.ResetAdminThenOtherPasswordFails` | index.js:113-118 | with unique admin ids, after a reset every password other than the new one is refused for that id |
| `Properties.ResetCandidateThenLogin` | index.js:122-127 | after a candidate's password is reset, candidate login with the same key and the new password returns that candidate's view |
| `Properties.ResetCandidateThenOtherPasswordFails` | index.js:122-127 | when the key names a single candidate, after a reset every password other than the new one is refused |
| `Properties.CompleteTrainingThenGetUser` | index.js:152-158 | after a technique is logged, get-user shows it last in the candidate's completed techniques, with the rest of the view unchanged |
| `Properties.CompleteSessionThenGetUser` | index.js:166-172 | after a session is logged, get-user shows it last in the candidate's customer sessions, with the rest of the view unchanged |
| `Properties.GetUserIsListed` | index.js:141-145 | what get-user returns is an element of the user list |
| `Properties.ListUsersIgnoresPasswords` | index.js:136 | changing any candidate's password leaves the user list unchanged, so the list reveals no password |
| `Properties.GetUserIgnoresPasswords` | index.js:142-145 | changing any candidate's password leaves every get-user answer unchanged |

## Left out

- The Express application, CORS, the body-size limit, route registration,
  the health-check route and `app.listen` (index.js:1-20, 49-52, 179-181):
  framework plumbing with no logic of the store.
- Loading the database file (index.js:28-39): reading and parsing the JSON
  file is I/O. The constructor models only the branch where no file exists:
  the seeded store is written out. A store loaded from a file may hold any
  lists, so no method assumes unique keys on entry. When a corrupt file is
  ignored, the seeded store is kept but not written back; the model does
  not cover that case.
- `saveData` writes to disk (index.js:42-45). It is modelled as a ghost
  copy of the store. A failed `writeFileSync` throws inside the route
  handler and Express answers 500, while the in-memory change stays and the
  file no longer matches it; that path is not modelled.
- `Date.now()` (index.js:94, 98) is a clock read. Its two readings are the
  parameters `idClock` and `joinedClock` of `Register`.
- Request bodies are modelled as strings. Missing fields (JavaScript
  `undefined`, which `===` compares equal to another `undefined`) and
  non-string values are not modelled. Nor is a loaded candidate without
  `completedTechniques` or `customerSessions`, on which `push` would throw.
- Logging with `console.log`/`console.error`, the HTTP status codes and the
  JSON envelope shapes: the outcome is the `Result` value and its message.
- Concurrency: the code handles one request at a time and so does the
  model.
