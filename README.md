# Task tracker server, modelled in Dafny

The server of a small student/teacher task tracker. The model covers:

- Accounts: sign-up and log-in. A student names a teacher when signing up. A teacher signs up alone.
- A bearer token that identifies the caller on every later request.
- Tasks: each has a title, an optional description, an optional due date and a progress value (`not-started`, `in-progress`, `completed`).
- Who sees which tasks: a student sees its own tasks. A teacher sees its own tasks and those of the students assigned to it.
- Who changes which tasks: only the owner may change or delete a task.

Every refusal has the shape `{ success: false, message }` and comes with an HTTP status.

## Modules

| Module | File | What it models |
|---|---|---|
| `Common` | `common.dfy` | Identifiers, the two enumerations, the request bodies and the response envelope. It also holds the JavaScript string operations the server relies on: `trim` with ECMAScript white space, UTF-16 `length` and `join`. |
| `Primitives` | `primitives.dfy` | The library calls. The express-validator checks, the ObjectId cast and `jwt.verify` are left uninterpreted: they are fields of an `Oracles` value the routes receive. bcrypt is modelled by the key it derives from a password: the UTF-8 bytes and a NUL, repeated to 72 bytes, as bcryptjs's `2a` scheme does. A signed token is represented by the payload it carries. |
| `UserModel` | `user_model.dfy` | The user schema: the `lowercase` and `trim` setters on `email`, its `match` pattern, the validators, the `pre('save')` hook that hashes the password, `comparePassword`, and the user as it is sent back. |
| `TaskModel` | `task_model.dfy` | The task schema: the `trim` setters, `maxlength` counted in UTF-16 code units, and the progress default. |
| `Database` | `database.dfy` | The two collections, held by `class Store` and changed in place: `User.create`, `Task.create`, `task.save()`, `findByIdAndDelete` and `findOne`. It also states the invariants that these operations and the routes preserve. |
| `ErrorHandler` | `error_handler.dfy` | The central error handler. |
| `Validators` | `validators.dfy` | The reusable validator chains. |
| `AuthMiddleware` | `auth_middleware.dfy` | `authenticate` and `authorizeTaskAccess`. |
| `AuthRoutes` | `auth_routes.dfy` | `POST /signup` and `POST /login`. |
| `UserRoutes` | `user_routes.dfy` | `GET /teachers` and `GET /me`. |
| `TaskRoutes` | `task_routes.dfy` | `GET /`, `POST /`, `PUT /:id` and `DELETE /:id` of the task router. |

## How the model is built

**Routes.** Each route that only reads is a function from the store's maps to a `Response`. Each route that writes is split in two:

- a decision function holds the checks the route makes, in the route's order;
- a method on the `Store` calls that function and then performs the write.

The method's `ensures` gives the new store and the response in terms of the decision function. Both methods keep the store invariants:

- `Store.Valid`: the database's own guarantees. Documents are keyed by id, admitted by their schema and older than the counters. Emails are unique. Task ids grow with creation time.
- `Store.Linked`: the routes' guarantees. A student has a teacher who is a stored teacher, and a teacher has no teacher of its own. Every task's owner is a stored user.

**Ids and ordering.** Ids and timestamps come from two increasing counters. A collection's natural order is therefore its id order, and `Database.Scan` walks it. `sort({ createdAt: -1 })` is the reversed scan. `NewestFirst` proves that this reversed scan is in descending creation order.

**Where the code and the design differ.** The model follows the code:

- A `:id` that is not an ObjectId is answered with 500 by `authorizeTaskAccess`'s own `catch`, not with the 400 of the error handler's `CastError` branch.
- Route refusals are sent directly by each route. Only the errors the store throws reach the central handler.

## Model

| member | source | states |
|---|---|---|
| Common.ParseRole | server/src/models/User.js:17-21 | A string is accepted exactly when it is one of the two role names, and the accepted role prints back as that same string. |
| Common.RoleNameParses | server/src/models/User.js:19 | Every role's stored name parses back to that role. |
| Common.ParseProgress | server/src/models/Task.js:24-29 | A string is accepted exactly when it is one of the three progress names, and the accepted value prints back as that string. |
| Common.ProgressNameParses | server/src/models/Task.js:26 | Every progress value's stored name parses back to that value. |
| Common.Trim | server/src/models/Task.js:13 | `trim` leaves no white space at either end. It never lengthens a string. It yields "" exactly when the input is all white space. |
| Common.TrimUnique | server/src/models/Task.js:13 | `trim` removes exactly the surrounding white space: a trimmed text between two blank strings is returned unchanged. |
| Common.TrimOfTrimmed | server/src/models/Task.js:18 | A string with no white space at either end is a fixed point of `trim`. |
| Common.TrimIdempotent | server/src/routes/tasks.js:75-85 | Trimming twice is trimming once. The validator's `trim` sanitiser and the schema's `trim` setter therefore agree. |
| Common.Utf16Length | server/src/models/Task.js:14 | The `length` that `maxlength` compares lies between the code-point count and twice that count. It equals the code-point count exactly when every character lies in the Basic Multilingual Plane. |
| Common.ValidatorLength | server/src/middleware/validators.js:5 | express-validator's `isLength` counts code points and skips the variation selectors U+FE0E and U+FE0F. The count never exceeds the code-point count, and equals it exactly when the text has no variation selector. |
| Common.ValidatorLengthAgrees | server/src/routes/tasks.js:75-85 | The route's count never exceeds the schema's UTF-16 count. The two agree exactly when every character lies in the Basic Multilingual Plane and none is a variation selector. |
| Common.Join | server/src/middleware/errorHandler.js:8-11 | `join` of no messages is "". `join` of one message is that message. The result always starts with the first message. |
| Primitives.Utf8Encode | server/src/models/User.js:49 | A password becomes between one and four bytes per character, and a password without NUL gives no zero byte. |
| Primitives.Utf8Injective | server/src/models/User.js:49 | Different passwords have different UTF-8 encodings. |
| Primitives.BcryptKey | server/src/models/User.js:49 | The key bcrypt derives from a password is always 72 bytes long. |
| Primitives.BcryptHash | server/src/models/User.js:48-49 | A hash has the fixed length of "$2a$12$", the salt and the digest. `compare` accepts a candidate against it exactly when the candidate's 72-byte key equals the password's key. |
| Primitives.BcryptCompare | server/src/models/User.js:55 | `compare` accepts only a hash of the right length that starts with "$2a$12$". |
| Primitives.CompareRehashes | server/src/models/User.js:55 | `compare` accepts a candidate exactly when hashing the candidate with the hash's own salt reproduces the hash. |
| Primitives.ShortPasswordsExact | server/src/models/User.js:48-49 | Two passwords without NUL whose encodings are shorter than 72 bytes have the same key only if they are the same password. |
| Primitives.LongPasswordsTruncated | server/src/models/User.js:48-49 | Two passwords of at least 72 bytes that agree on their first 72 bytes have the same key, so bcrypt does not tell them apart. |
| UserModel.Lower | server/src/models/User.js:9 | The `lowercase` setter maps each character to its lower case and keeps the length. |
| UserModel.NormalizeEmail | server/src/models/User.js:9-10 | The stored email has no upper-case letter, no white space at either end, and is no longer than the input. |
| UserModel.NormalizeEmailOf | server/src/models/User.js:9-10 | The setters return exactly the lower-cased text between the surrounding white space. |
| UserModel.TrimKeepsNoUpper | server/src/models/User.js:9-10 | Trimming a lower-case string keeps it lower-case, so the setters' result is fully normalised. |
| UserModel.NormalizedIsFixed | server/src/models/User.js:9-10 | An email is left alone by the setters if and only if it is trimmed and has no upper-case letter. |
| UserModel.NormalizeEmailIdempotent | server/src/models/User.js:9-10 | The setters applied to a stored email change nothing. |
| UserModel.MatchesEmail | server/src/models/User.js:11 | The regular-expression test holds exactly when the string has no white space and splits as a non-empty part, '@', a non-empty part, '.', and a non-empty part. |
| UserModel.EmailSplit | server/src/models/User.js:11 | Checking only the first '@' and the last '.' decides whether any split of that form exists. |
| UserModel.SchemaErrors | server/src/models/User.js:4-29 | A user is admitted exactly when the email is present and matches the pattern, the password is present, and a student has a teacher. At most one message is given per path. |
| UserModel.ComparePassword | server/src/models/User.js:54-56 | When `comparePassword` accepts a candidate, the stored hash accepts exactly the passwords with that candidate's key. |
| UserModel.Presented | server/src/routes/users.js:42-51 | The user that is sent back keeps the id, email, role and timestamps and never includes the hash. A student's teacher is populated with the stored teacher's email and role. A teacher's own `teacherId` is left raw. |
| UserModel.UserDocument.constructor | server/src/routes/auth.js:87-92 | A new document holds the plain password and counts as modified. |
| UserModel.UserDocument.SetPasswordHash | server/src/models/User.js:45 | Assigning the path marks it modified exactly when the value changes. |
| UserModel.UserDocument.Save | server/src/models/User.js:43-51 | Saving hashes the password only if its path was modified. After a save, no path is modified. |
| UserModel.SaveTwice | server/src/models/User.js:45 | A second save does not hash the hash again, so the stored hash still accepts exactly the passwords with the original password's key. |
| UserModel.SaveAfterSameAssignment | server/src/models/User.js:45 | Assigning the hash its own value and saving leaves the hash as it was, because the path is not marked modified. |
| TaskModel.SchemaErrors | server/src/models/Task.js:4-29 | A task is admitted exactly when the title is non-empty and at most 200 UTF-16 units long and the description is at most 1000 units long. |
| TaskModel.Validate | server/src/models/Task.js:10-20 | Validation runs the `trim` setters. It admits the trimmed values, or it refuses with at least one message exactly when those values break the schema. |
| TaskModel.ValidateKeepsValid | server/src/models/Task.js:10-20 | Values the schema already admits are admitted unchanged. |
| Database.Scan | server/src/routes/tasks.js:55-57 | `find` returns exactly the stored documents below the bound that the filter keeps, in strictly increasing id order. |
| Database.FindUserByEmail | server/src/routes/auth.js:78 | `findOne({ email })` returns a stored user with that email, and returns nothing exactly when no stored user has it. |
| Database.UniqueEmailsInsert | server/src/models/User.js:8 | Inserting a user whose email is not in use keeps the `unique` index satisfied. |
| Database.CreationOrderedInsert | server/src/models/Task.js:31 | A task created with the next id and the current time keeps ids and creation times growing together. |
| Database.TeacherLinksInsert | server/src/models/User.js:22-29 | Adding a student linked to a stored teacher, or a teacher with no link, keeps every link pointing at a stored teacher. |
| Database.Store.constructor | server/src/models/User.js:4-32 | The empty store satisfies both the database's and the routes' invariants. |
| Database.Store.CreateUser | server/src/models/User.js:4-51 | `User.create` refuses with the schema's messages, then with a duplicate key exactly when the normalised email is taken. Otherwise it inserts one user with the next id, the normalised email and a hash that accepts exactly the passwords with the given password's bcrypt key. Other users and all tasks are unchanged, and the invariants hold. |
| Database.Store.InsertUser | server/src/models/User.js:8 | Inserting an admitted user with a free email adds exactly that user and advances both counters. |
| Database.Store.CreateTask | server/src/models/Task.js:4-32 | `Task.create` either refuses with the schema's messages and changes nothing, or adds exactly one task. That task has the next id, the trimmed fields and both timestamps set to now. |
| Database.Store.SaveTask | server/src/routes/tasks.js:175 | `save()` either refuses with the schema's messages and changes nothing, or replaces only that task. `createdAt` is kept. `updatedAt` moves on only when a path changed. |
| Database.Store.DeleteTaskById | server/src/routes/tasks.js:199 | `findByIdAndDelete` removes exactly that task, if present, and returns what was removed. |
| ErrorHandler.ShapeOf | server/src/middleware/errorHandler.js:7-40 | The branches are tried in order: `ValidationError`, code 11000, `CastError`, then an `array` function. Each shape holds exactly when the earlier tests fail and its own test succeeds. |
| ErrorHandler.Handle | server/src/middleware/errorHandler.js:5-48 | Every reply is a failure. Each recognised shape gets 400 with its own message: the joined field messages, the duplicated key, "Invalid ID format." or the joined validator messages. Otherwise the error's status code and message are used, with 500 and the fallback text as defaults. |
| ErrorHandler.StoreErrorsAre400 | server/src/middleware/errorHandler.js:7-22 | Every error the store throws becomes a 400 that names the failing fields or the duplicated key. |
| ErrorHandler.OnlyUnclassifiedEscape400 | server/src/middleware/errorHandler.js:43-47 | A status other than 400 comes only from an unrecognised error. Without a status code, such an error is a 500. |
| ErrorHandler.DuplicateMessage | server/src/middleware/errorHandler.js:17-20 | The duplicate-key message starts with the first key of the pattern and ends with that key and a full stop. With no key it starts with `undefined`. |
| ErrorHandler.Thrown | server/src/middleware/errorHandler.js:7-17 | A schema failure reaches the handler as a `ValidationError` carrying the schema's messages. A unique-index failure reaches it as code 11000 carrying the duplicated fields. |
| Validators.FirstError | server/src/middleware/validators.js:8-12 | A chain passes the request on exactly when no rule failed. Otherwise it answers 400 with the first failing rule's message. |
| Validators.SignupErrors | server/src/middleware/validators.js:3-7 | The signup chain fails exactly when the email check fails, the password is shorter than 6 as `isLength` counts, the role is not one of the two, or a student gives an empty `teacherId`. |
| Validators.SignupValidator | server/src/middleware/validators.js:3-13 | The signup chain answers with the first failing rule's message in declaration order: email, then password, then role. |
| Validators.TeacherIdOnlyForStudents | server/src/middleware/validators.js:7 | For a role other than "student", the answer does not depend on `teacherId`. |
| Validators.StudentNeedsTeacher | server/src/middleware/validators.js:7 | Once the other fields are good, a student passes exactly when `teacherId` is non-empty. Otherwise the student gets that rule's message. |
| Validators.LoginErrors | server/src/middleware/validators.js:15-17 | The login chain fails exactly on a failed email check or a missing password, and only with the default message. |
| Validators.LoginValidator | server/src/middleware/validators.js:15-23 | The login chain passes exactly when the email checks out and a password is present. Otherwise it answers 400 "Invalid value". |
| Validators.TaskCreateErrors | server/src/middleware/validators.js:25-27 | The task chain fails exactly when `userId` or `title` is empty. |
| Validators.TaskCreateValidator | server/src/middleware/validators.js:25-33 | The task chain reports a missing `userId` before a missing `title`. |
| AuthMiddleware.BearerToken | server/src/middleware/auth.js:12-21 | A token is found exactly when the header starts with "Bearer ". The header is then that prefix followed by the token. |
| AuthMiddleware.BearerRoundTrip | server/src/middleware/auth.js:21 | The token read from "Bearer " followed by a token is that token. |
| AuthMiddleware.Authenticate | server/src/middleware/auth.js:9-58 | A request is authenticated exactly when its token verifies to the id of a stored user, and it then acts as that user without the hash. Otherwise it is refused with 401, or with 500 only when verification throws an error other than the two token errors. |
| AuthMiddleware.AuthenticateRefusals | server/src/middleware/auth.js:14-51 | A missing header, an invalid token, an expired token and a token for an unknown user each get 401 with their own message. |
| AuthMiddleware.AuthorizeCreate | server/src/middleware/auth.js:71-81 | A create is refused with 403 exactly when the body names another user. Otherwise the owner becomes the caller. |
| AuthMiddleware.AuthorizeModify | server/src/middleware/auth.js:84-111 | A change passes exactly when `:id` casts to a stored task owned by the caller, and it then yields that task. Every refusal is 400, 403, 404 or 500. |
| AuthMiddleware.AuthorizeTaskAccess | server/src/middleware/auth.js:64-120 | GET passes on untouched. POST sets the owner to the caller or refuses with 403. PUT and DELETE let only the owner of the named task through. |
| AuthMiddleware.ModifyLadder | server/src/middleware/auth.js:85-107 | For PUT and DELETE the refusals come in order: a missing id gets 400, an id that does not cast gets 500, an unknown task gets 404, and another user's task gets 403. |
| AuthMiddleware.BodyIgnoredOnModify | server/src/middleware/auth.js:84-111 | The body's `userId` plays no part in PUT and DELETE. |
| AuthRoutes.IssueToken | server/src/routes/auth.js:95-99 | The token carries the user's id and role and lasts seven days. |
| AuthRoutes.SignupFieldErrors | server/src/routes/auth.js:24-38 | The signup fields fail exactly on a bad email, a password shorter than 6 as `isLength` counts, an unknown role, or a `teacherId` that is present but not an ObjectId. |
| AuthRoutes.SignupDecision | server/src/routes/auth.js:42-92 | A draft is admitted exactly when the fields pass, a student names a teacher, the named teacher is a stored teacher, and the normalised email is not in use. Field errors are answered with all their messages joined. Every refusal is a 400. An admitted draft has the sanitised email, a password of at least 6 characters and the requested role. It has a teacher exactly when it is a student. |
| AuthRoutes.SignupLadder | server/src/routes/auth.js:53-84 | After the fields pass, four checks apply in order: a student without a teacher, an unknown teacher, a teacher id that names a non-teacher, and an email in use. Each gets its own 400 message. |
| AuthRoutes.Register | server/src/routes/auth.js:87-92 | Creating an admitted draft can fail only on the schema's own checks. On success it adds exactly one user with the draft's email, role and teacher and a hash that accepts exactly the passwords with the draft password's key, and keeps every invariant. |
| AuthRoutes.Signup | server/src/routes/auth.js:24-117 | A refusal leaves the store unchanged and is a 400. Either the route's own check or the error handler's translation of the store's error gives the message. Success adds exactly one user and answers 201 with a token for that user and the user without its hash. Every invariant is kept. |
| AuthRoutes.LoginFieldErrors | server/src/routes/auth.js:123-130 | The login fields fail exactly on a bad email or an empty password. |
| AuthRoutes.LoginEmail | server/src/routes/auth.js:124-145 | The address looked up is always in the stored normal form. An address the sanitiser already normalised is looked up as it is. |
| AuthRoutes.Login | server/src/routes/auth.js:123-185 | Field errors are answered 400 with their messages joined. Every other refusal is 401 "Invalid email or password.". A success names a stored user whose email is the normalised address and whose hash accepts the password, with that user's token and view. |
| AuthRoutes.LoginSucceedsIff | server/src/routes/auth.js:145-160 | With unique emails, a login succeeds if and only if some stored user has that address and accepts that password. |
| AuthRoutes.LoginAfterSignup | server/src/routes/auth.js:87-92 | An account just signed up, whose hash accepts the signup password, logs in with the same email and password and gets back itself. |
| AuthRoutes.NoAccountProbe | server/src/routes/auth.js:146-159 | An unknown email and a wrong password get the same answer. |
| AuthRoutes.TokenAuthenticates | server/src/routes/auth.js:163-167 | The token a login issues authenticates later requests as that same user. |
| UserRoutes.StrLeTotal | server/src/routes/users.js:17 | Any two emails are comparable in the sort order. |
| UserRoutes.StrLeTrans | server/src/routes/users.js:17 | The sort order on emails is transitive. |
| UserRoutes.StrLeAntisymmetric | server/src/routes/users.js:17 | Two emails that sort before each other are equal. |
| UserRoutes.InsertByEmail | server/src/routes/users.js:17 | Inserting into a sorted list keeps it sorted and adds exactly that entry. |
| UserRoutes.SortByEmail | server/src/routes/users.js:17 | `sort({ email: 1 })` returns a permutation of its input in ascending email order. |
| UserRoutes.EntriesOf | server/src/routes/users.js:16 | `select('_id email')` keeps one entry per user, in order, with the user's id and email. |
| UserRoutes.Teachers | server/src/routes/users.js:15-17 | The teacher list is in ascending email order. |
| UserRoutes.TeachersListing | server/src/routes/users.js:13-26 | The list holds exactly the stored teachers, each as its id and email. |
| UserRoutes.TeacherListed | server/src/routes/users.js:15-17 | An entry is listed if and only if it is a stored teacher's id and email. |
| UserRoutes.TeacherScanned | server/src/routes/users.js:15-16 | Before sorting, the query yields exactly the stored teachers' entries. |
| UserRoutes.TeachersStrictlyAscending | server/src/routes/users.js:15-17 | Each teacher appears once. With unique emails, the list is strictly ascending. |
| UserRoutes.GetTeachers | server/src/routes/users.js:13-26 | `/teachers` always answers 200. Its list is in ascending email order and holds exactly the stored teachers, each as its id and email. |
| UserRoutes.Me | server/src/routes/users.js:36-60 | `/me` is refused exactly when authentication fails, with that refusal. Otherwise it returns the caller's stored record without the hash and with the teacher populated. |
| UserRoutes.MeShowsTeacher | server/src/routes/users.js:42-51 | Under the routes' links, a student's `/me` shows a populated teacher that is a stored teacher. A teacher's `/me` shows no teacher. |
| TaskRoutes.IdsOf | server/src/routes/tasks.js:40 | `map(s => s._id)` keeps the order and takes each user's id. |
| TaskRoutes.AssignedStudents | server/src/routes/tasks.js:35-40 | Every id found is a stored student assigned to the teacher. The ids come in increasing order. |
| TaskRoutes.AssignedStudentsAre | server/src/routes/tasks.js:35-40 | A teacher's student ids are exactly the stored students whose `teacherId` is that teacher. |
| TaskRoutes.ProgressFilter | server/src/routes/tasks.js:50-52 | The progress filter applies exactly when the query value is one of the three names, and it then selects that value. |
| TaskRoutes.BuildQuery | server/src/routes/tasks.js:24-52 | A student's query selects its own tasks. A teacher's query selects its own tasks and those of students assigned to it. The progress part is the filter. |
| TaskRoutes.QueryMeansVisible | server/src/routes/tasks.js:24-52 | The query selects a task exactly when the caller may see it and the filter admits it. |
| TaskRoutes.ListTasks | server/src/routes/tasks.js:55-57 | Every listed task is a stored task the query selects. The list is in strictly decreasing id order. |
| TaskRoutes.ListScope | server/src/routes/tasks.js:24-57 | A task is listed if and only if it is stored, visible to the caller and admitted by the filter. Visible means the caller's own task, or, for a teacher, a task of a student assigned to it. |
| TaskRoutes.ProgressNameInjective | server/src/routes/tasks.js:51 | Two progress values have the same name only if they are equal, so filtering by name is filtering by value. |
| TaskRoutes.StudentSeesOwnOnly | server/src/routes/tasks.js:26-28 | Every task in a student's list is owned by that student. |
| TaskRoutes.NewestFirst | server/src/routes/tasks.js:57 | The list is in strictly descending creation time. |
| TaskRoutes.InvalidFilterIgnored | server/src/routes/tasks.js:50 | A progress value outside the three names is ignored, not refused. |
| TaskRoutes.GetTasks | server/src/routes/tasks.js:19-67 | The list route is refused exactly when authentication fails, with that refusal. Otherwise it returns 200 with the caller's list and its count. |
| TaskRoutes.OptionalFieldErrors | server/src/routes/tasks.js:81-93 | The optional rules fail exactly when a present description is over 1000 characters after trimming, as `isLength` counts, a present due date is not ISO 8601, or a present progress is not one of the three. |
| TaskRoutes.PostTitleErrors | server/src/routes/tasks.js:75-80 | A create's title fails exactly when, trimmed, it is empty or longer than 200 characters as `isLength` counts. |
| TaskRoutes.PutTitleErrors | server/src/routes/tasks.js:135-141 | An update's title, when present, fails exactly when, trimmed, it is empty or longer than 200 characters as `isLength` counts. |
| TaskRoutes.NewTaskFields | server/src/routes/tasks.js:108-114 | A new task belongs to the caller and has the trimmed title and the trimmed description. A non-empty due date is kept. A valid progress is kept. A missing description, due date or progress takes its default: "", `null` or "not-started". |
| TaskRoutes.PostDecision | server/src/routes/tasks.js:74-114 | A create is admitted exactly when the caller is authenticated, the body names no other owner and the fields pass. The owner is then a stored user. Refusals come in order: authentication, then 403 for another owner, then 400 with the joined field messages. |
| TaskRoutes.AdmittedIsStored | server/src/routes/tasks.js:75-85 | When the route's count and the schema's UTF-16 count agree on the title and description, fields the route admits pass the schema unchanged. |
| TaskRoutes.PostTask | server/src/routes/tasks.js:74-127 | A refusal changes nothing. Success adds exactly one task owned by the caller, with the next id and both timestamps now, and answers 201. A failure in the store reaches the error handler. Every invariant is kept. |
| TaskRoutes.CastDate | server/src/models/Task.js:21-23 | The `Date` cast turns '' into `null` and keeps any other value. |
| TaskRoutes.UpdatedFields | server/src/routes/tasks.js:166-173 | Each field present in the body replaces the stored one, trimmed or cast. Each absent field keeps its stored value. The owner never changes. |
| TaskRoutes.EmptyUpdateKeepsFields | server/src/routes/tasks.js:170-173 | An update with an empty body leaves every path as it was. |
| TaskRoutes.PutDecision | server/src/routes/tasks.js:134-173 | An update is admitted exactly when the caller owns the task named by `:id` and the fields pass. Refusals come in order: authentication, then the ownership checks, then 400 with the joined field messages. |
| TaskRoutes.PutTask | server/src/routes/tasks.js:134-188 | A refusal changes nothing. Success replaces only that task, keeping its owner and creation time, and answers 200. Every invariant is kept. |
| TaskRoutes.DeleteDecision | server/src/middleware/auth.js:84-111 | A delete is admitted exactly when the caller owns the task named by `:id`. A refusal is authentication's refusal, or else the ownership check's refusal. |
| TaskRoutes.DeleteTask | server/src/routes/tasks.js:195-208 | Success removes exactly the owned task and answers 200. A refusal changes nothing. Every invariant is kept. |

## Left out

- Transport, Express routing and the application setup are not modelled. Each route is a function or method that takes its request's body fields, header and `:id`.
- The rate limiter of `POST /login` keeps only its constants, `LoginWindowMs`, `LoginMaxAttempts` and `LoginThrottled`. Counting requests per client over time needs a clock and client identity, which are not modelled.
- Concurrency between requests is not modelled. Each route runs to completion on the store. Two simultaneous signups with one email are decided by the unique index, as in `CreateUser`.
- `Primitives.Oracles` leaves several library algorithms uninterpreted: express-validator's `isEmail`, `normalizeEmail`, `isISO8601` and `isMongoId`, the ObjectId cast and `toString`, and `jwt.verify` with its secret and clock. They are parameters; the model states what the routes do with their answers.
- `Primitives.BcryptHash` writes the 72-byte key itself where bcrypt writes the Blowfish digest of it. The model is therefore not one-way, and it does not model the digest's 184 bits. The key derivation is modelled: UTF-8 bytes, a NUL terminator, repetition, and truncation at 72 bytes. The salt is random in bcrypt and a parameter here.
- `Primitives.ShortPasswordsExact`: that a key determines its password is proved only for passwords without NUL whose encodings are shorter than 72 bytes. Longer passwords share keys (`Primitives.LongPasswordsTruncated`). A password ending in a NUL can share a key with a shorter one.
- Tokens are represented by their payload. Signing, the secret and expiry by wall-clock time live inside `verifyJwt`.
- `UserModel.Lower` lower-cases ASCII letters only. Mongoose's `lowercase` setter uses `toLowerCase`, which also folds non-ASCII letters.
- Request bodies are strings or absent. JSON `null`, numbers, arrays and objects in a field, and the `toString` coercions they trigger, are not modelled.
- Due dates are kept as the request's string. Parsing to a `Date` and its normalisation are not modelled, beyond '' becoming `null` (`TaskRoutes.CastDate`).
- `populate('userId', 'email role')` on task responses is not modelled. Tasks are returned with the owner's id.
- `console.error` in the error handler is not modelled.
- Within one millisecond MongoDB's sort may order ties either way. The model gives every write its own timestamp, so ties do not arise.
- `ErrorHandler.DuplicateMessage`: an 11000 error without a `keyPattern` object would throw inside the handler. The model takes its keys as a possibly empty list and prints `undefined` when it is empty.
- `AuthMiddleware.Authenticate`: a token whose `userId` fails to cast is a `CastError` caught by the `catch`, which answers 500. The model takes the decoded id as already cast, so that path is not modelled.
- `TaskModel.SchemaErrors` counts UTF-16 units, as Mongoose's `maxlength` does. The route validators count code points other than U+FE0E and U+FE0F, as express-validator's `isLength` does (`Common.ValidatorLength`).
- `TaskRoutes.AdmittedIsStored` is stated only when the two counts agree on the title and description (`Common.ValidatorLengthAgrees`). Otherwise a title the route admits can exceed the schema's 200 units, and the store then refuses it.
- The `teacher` virtual on the user schema is declared but never used by the routes, so it is not modelled.
- The chains of `server/src/middleware/validators.js` are modelled as standalone chains. None of the modelled routes mounts them, and the file that mounts routers is not part of this model.
