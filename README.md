# Task board core, modelled in Dafny

A model of the task-management app's core. The client holds a Kanban board: one flat,
ordered collection of tasks, shown as three columns ("todo", "in progress", "done").
Cards are dragged between columns and reordered within them. Every status change is
applied to the local collection at once and also sent to the server. When that update
fails, the whole collection is fetched again. Around this engine the model covers:

- the add-task and edit-task dialogs;
- the signup and login form schemas;
- the auth token holder and the request interceptor that attaches `Authorization: Bearer <token>`;
- on the server, the token middleware, the error handler and user registration.

Layout: one module per source file, plus small shared modules.

- `common.dfy` (`Common`): `Option` and JavaScript truthiness of strings.
- `http.dfy` (`Http`): the requests the client sends, the errors it receives and the toasts it shows, kept as logs.
- `tasks.dfy` (`Tasks`): the task record, `find`/`findIndex`/`map`, dnd-kit's `arrayMove` and the three column filters.
- `home_page.dfy` (`Home`): the drag-over decision as a pure function, and the `HomePage` class with the drag handlers.
- `forms.dfy` (`Forms`): the zod length and email checks.
- `add_task_dialog.dfy`, `edit_task_dialog.dfy`, `signup_page.dfy`, `login_page.dfy`: the dialogs and form schemas.
- `cookies.dfy`, `auth_context.dfy`, `axios_instance.dfy`: the cookie jar, `AuthProvider` and the interceptor.
- `express.dfy`, `validate_token.dfy`, `bearer_round_trip.dfy`, `error_handler.dfy`, `user_controller.dfy`: the server side, and the client-to-server header round trip.

Where the source changes state in place (the home page's `tasks` and `activeTask`, the dialogs'
`open` flags and forms, the auth state and its cookie, the request config, the response and
request objects, the user collection), the model uses a class. Its methods state their whole
new state in terms of a pure function. The properties are proved about those functions.

Requests are not executed. Each one is appended to `Api.sent`. Its completion is a later
input: a method that takes a `Settled` value (the response body, or an `HttpError`).
Foreign code is passed in as a parameter:

- zod's email format check: `isEmail`;
- JWT verification: `verify`;
- bcrypt: `hash`;
- what `User.create` yields: `CreateOutcome`.

Two points follow the code as written:
- A task's status is a plain string. A task whose status is not one of the three column ids appears in no column.
- The only drag state the page keeps is the active task.

## Model

| member | source | states |
|---|---|---|
| Tasks.FindIndex | client/src/pages/home/HomePage.tsx:152-153 | `findIndex` by id gives the first index holding that id, or -1 exactly when no task has it |
| Tasks.Find | client/src/pages/home/HomePage.tsx:102-105 | `find` by id is none exactly when no task has the id; otherwise it is the task at `findIndex` |
| Tasks.SetStatus | client/src/pages/home/HomePage.tsx:110-116 | the status `map` keeps the length; every task with the id gets the new status and every other task is unchanged |
| Tasks.ArrayMove | client/src/pages/home/HomePage.tsx:154 | `arrayMove` keeps the length and puts the moved element at the target index; removing it again gives the input with the element removed from its source index, so all others keep their relative order |
| Tasks.ArrayMovePermutes | client/src/pages/home/HomePage.tsx:150-155 | the move is a permutation: the same multiset of tasks |
| Tasks.ArrayMoveAt | client/src/pages/home/HomePage.tsx:150-155 | exact landing place of every element: moved one at `to`, those between shifted by one toward `from`, the rest in place |
| Tasks.ArrayMoveInverse | client/src/pages/home/HomePage.tsx:150-155 | moving from `to` back to `from` restores the original collection (the move's inverse) |
| Tasks.ArrayMoveInPlace | client/src/pages/home/HomePage.tsx:150-155 | a move onto its own index changes nothing |
| Tasks.Column | client/src/pages/home/HomePage.tsx:204-206 | a column holds only tasks of its status and is no longer than the collection |
| Tasks.ColumnAppend | client/src/pages/home/HomePage.tsx:204-206 | the filter distributes over concatenation, so a column keeps the collection's order |
| Tasks.ColumnMembers | client/src/pages/home/HomePage.tsx:204-206 | a task is in a column iff it is in the collection with that status (both directions) |
| Tasks.OffBoard | client/src/pages/home/HomePage.tsx:204-206 | a task whose status is not one of the three bucket ids appears in no column |
| Tasks.ColumnsCover | client/src/pages/home/HomePage.tsx:204-206 | when every status is a bucket id, the three column lengths add up to the collection's length |
| Tasks.ColumnUnmoved | client/src/pages/home/HomePage.tsx:150-155 | moving a task leaves every column of another status exactly as it was |
| Home.DragOverUpdate | client/src/pages/home/HomePage.tsx:97-193 | a drag-over never changes the collection's length; any request it sends is a status update of the active task; when it sends nothing, the result is a permutation of the input |
| Home.DragOverIgnored | client/src/pages/home/HomePage.tsx:100-147 | no target, an active id not in the collection, or a target that is neither a bucket nor a task: collection unchanged, no request |
| Home.DragOverSendsIffMigration | client/src/pages/home/HomePage.tsx:107-191 | a status update is sent iff the active task moves to a bucket other than its status or onto a task of another status; it carries the active id and the bucket id or the target's status |
| Home.DragOverBucket | client/src/pages/home/HomePage.tsx:108-120 | a bucket other than the active status: that task takes the bucket as status at once, order and every other task unchanged, exactly one `PUT /tasks/<id> {status: bucket}` |
| Home.DragOverSameBucket | client/src/pages/home/HomePage.tsx:108-109 | the bucket the active task is already in: nothing changes and nothing is sent |
| Home.BucketReentryIdempotent | client/src/pages/home/HomePage.tsx:108-120 | re-entering the same bucket changes nothing more and never sends a second update |
| Home.DragOverReorder | client/src/pages/home/HomePage.tsx:150-155 | a task of the same status: the result is `arrayMove(tasks, activeIndex, overIndex)`, a permutation, active task at the target's index, others in order, other-status columns unchanged, no request |
| Home.DragOverMigrateOntoTask | client/src/pages/home/HomePage.tsx:156-169 | a task of another status: the active task, with the target's status, lands at the target's index; the others keep content and relative order; one update with the target's status is sent |
| Home.SetStatusOnlyAt | client/src/pages/home/HomePage.tsx:161-163 | with unique ids the status `map` changes only the active task |
| Home.RepeatedTaskTargetSwapsBack | client/src/pages/home/HomePage.tsx:149-155 | a repeated task-target drag-over is not a no-op: two neighbours of the same status swap, then swap back |
| Home.HomePage.constructor | client/src/pages/home/HomePage.tsx:49-56 | mounting starts with no tasks, no active task, add dialog closed, and sends the initial `GET /tasks` |
| Home.HomePage.TasksLoaded | client/src/pages/home/HomePage.tsx:53-66 | a settled list fetch replaces the collection verbatim on success; on failure it toasts and leaves the collection as it was |
| Home.HomePage.OpenAdd | client/src/pages/home/HomePage.tsx:69-71 | the add button opens the add dialog |
| Home.HomePage.DragStart | client/src/pages/home/HomePage.tsx:91-95 | the active task becomes the task with the dragged id, or none when it is absent; the collection is untouched |
| Home.HomePage.DragOver | client/src/pages/home/HomePage.tsx:97-193 | the collection becomes the decision's collection, and its status update, if any, is appended to the request log |
| Home.HomePage.StatusUpdateSettled | client/src/pages/home/HomePage.tsx:119-141 | a failed status update toasts and sends one `GET /tasks`; a successful one does nothing |
| Home.HomePage.DragEnd | client/src/pages/home/HomePage.tsx:195-198 | ending a drag only clears the active task |
| Home.HomePage.DragCancel | client/src/pages/home/HomePage.tsx:200-202 | cancelling only clears the active task; moves and status changes already applied stay |
| Home.HomePage.Columns | client/src/pages/home/HomePage.tsx:204-206 | the three rendered columns hold only "todo", "in progress" and "done" tasks respectively |
| Home.BucketMoveThenCancel | client/src/pages/home/HomePage.tsx:91-202 | for [A(todo), B(in progress)]: dragging A over "done" twice and cancelling leaves [A(done), B] and exactly one update sent |
| Http.ErrorToastFor | client/src/components/dialogs/AddTaskDialog.tsx:72-78 | an error toast shows the server's message, unless the status is 500, where it shows the fixed generic text |
| Forms.TaskFormIssues | client/src/components/dialogs/AddTaskDialog.tsx:40-46 | a title is accepted iff its length is 1 to 20; any description is accepted; blank and too-long titles get their messages (the edit dialog's schema, client/src/components/dialogs/EditTaskDialog.tsx:42-48, is the same) |
| AddTask.AddTaskDialog.constructor | client/src/components/dialogs/AddTaskDialog.tsx:57-63 | the form starts with empty title and description |
| AddTask.AddTaskDialog.Input | client/src/components/dialogs/AddTaskDialog.tsx:95-122 | typing sets the form values |
| AddTask.AddTaskDialog.Submit | client/src/components/dialogs/AddTaskDialog.tsx:65-82 | the form is checked against the task schema; a valid form sends `POST /tasks` with the form values and closes the dialog at once; an invalid one sends nothing and keeps it open |
| AddTask.AddTaskDialog.CreateSettled | client/src/components/dialogs/AddTaskDialog.tsx:66-79 | a created task is appended at the end, existing tasks unchanged; a failure toasts and leaves the collection unchanged |
| EditTask.Prefill | client/src/components/dialogs/EditTaskDialog.tsx:71-79 | the prefill uses the fetched title and description, each falling back to `""` when missing |
| EditTask.EditTaskDialog.constructor | client/src/components/dialogs/EditTaskDialog.tsx:61-87 | the form starts empty and `GET /tasks/:id` is sent for the prefill |
| EditTask.EditTaskDialog.PrefillSettled | client/src/components/dialogs/EditTaskDialog.tsx:71-87 | a fetched task resets the form to its prefill; a failure toasts and keeps the form |
| EditTask.EditTaskDialog.Input | client/src/components/dialogs/EditTaskDialog.tsx:137-166 | typing sets the form values |
| EditTask.EditTaskDialog.Submit | client/src/components/dialogs/EditTaskDialog.tsx:90-126 | the form is checked against the task schema; a valid form sends `PUT /tasks/:id` whose body is exactly the form's title and description, and closes the dialog at once |
| EditTask.EditTaskDialog.UpdateSettled | client/src/components/dialogs/EditTaskDialog.tsx:93-122 | success toasts, resets the form to empty strings and sends `GET /tasks`; failure toasts and changes nothing else |
| EditTask.EditTaskDialog.RefetchSettled | client/src/components/dialogs/EditTaskDialog.tsx:102-114 | the refetch replaces the collection on success and leaves it unchanged on failure |
| Forms.EmailIssues | client/src/pages/auth/LoginPage.tsx:23 | an email field has an issue iff zod's format check rejects it |
| Signup.SignupIssues | client/src/pages/auth/SignupPage.tsx:22-50 | the form is accepted iff both names have length 1 to 20, the email passes, both passwords have length 3 to 20, and they are equal |
| Signup.MismatchIssueIffDifferent | client/src/pages/auth/SignupPage.tsx:42-49 | "Passwords don't match" on `confirmPassword` is reported iff the two passwords differ |
| Signup.LongLastNameMessage | client/src/pages/auth/SignupPage.tsx:28-31 | a last name over 20 characters is reported with the text "First Name should be of max 20 character" |
| Signup.DefaultsRejected | client/src/pages/auth/SignupPage.tsx:55-61 | the all-empty defaults fail, with the empty first name reported first |
| Forms.PasswordIssues | client/src/pages/auth/LoginPage.tsx:24-27 | a password is accepted iff its length is 3 to 20; shorter and longer ones get their two messages (the signup schema applies the same rule to both password fields) |
| Login.LoginIssues | client/src/pages/auth/LoginPage.tsx:22-28 | the login form is accepted iff the email passes and the password rule holds |
| Login.DefaultsRejected | client/src/pages/auth/LoginPage.tsx:33-36 | the empty default password fails the password rule, so the defaults never validate |
| Cookies.Get | client/src/AuthContext.tsx:23 | reading a cookie gives its value, or undefined when it is absent |
| Cookies.CookieJar.Set | client/src/AuthContext.tsx:30 | writing a cookie overwrites only that cookie |
| Cookies.CookieJar.Remove | client/src/AuthContext.tsx:36 | removing a cookie removes only that cookie |
| Auth.InitialToken | client/src/AuthContext.tsx:22-25 | the initial token is the `authToken` cookie when it is non-empty, otherwise null |
| Auth.InitialInSyncUnlessEmpty | client/src/AuthContext.tsx:22-25 | the initial state agrees with the cookie except when the cookie is the empty string |
| Auth.Save | client/src/AuthContext.tsx:28-31 | saving sets state and cookie to the token, leaves them in agreement, and touches no other cookie |
| Auth.Clear | client/src/AuthContext.tsx:34-37 | clearing sets the state to null, removes the cookie, leaves them in agreement, and touches no other cookie |
| Auth.SaveThenClear | client/src/AuthContext.tsx:28-37 | save followed by clear is the same as clear alone: no token remains |
| Auth.AuthProvider.constructor | client/src/AuthContext.tsx:21-25 | the provider's token starts as the initial token read from the jar |
| Auth.AuthProvider.SaveToken | client/src/AuthContext.tsx:28-31 | the provider's state and jar become `Save` of the old ones |
| Auth.AuthProvider.ClearToken | client/src/AuthContext.tsx:34-37 | the provider's state and jar become `Clear` of the old ones |
| Auth.UseAuth | client/src/AuthContext.tsx:47-53 | `useAuth` throws "useAuth must be used within a AuthProvider" iff there is no provider, and otherwise returns it |
| Interceptor.WithAuthorization | client/src/config/axiosInstance.tsx:14-20 | a non-empty token sets `Authorization` to "Bearer " + token; an absent or empty one leaves the headers exactly as they were; no other header changes |
| Interceptor.Intercept | client/src/config/axiosInstance.tsx:13-20 | the config's headers are updated in place and the same config is returned with every other field unchanged |
| TokenCheck.SelectAuthHeader | server/src/middleware/validateTokenHandler.ts:15 | the header used is `x-access-token` when it is truthy, otherwise `authorization` as it is |
| TokenCheck.Split | server/src/middleware/validateTokenHandler.ts:24 | splitting always yields at least one field |
| TokenCheck.SplitWithoutSeparator | server/src/middleware/validateTokenHandler.ts:24 | a string without the separator splits into itself alone |
| TokenCheck.SplitAfterWord | server/src/middleware/validateTokenHandler.ts:24 | a separator-free word, a separator and a rest split into the word followed by the rest's fields |
| TokenCheck.SecondField | server/src/middleware/validateTokenHandler.ts:24 | `split(" ")[1]` is the second field, or undefined when there are fewer than two |
| TokenCheck.Validate | server/src/middleware/validateTokenHandler.ts:9-46 | the middleware sets no status other than 401 and always calls `next` at least once |
| TokenCheck.RejectsWithoutBearer | server/src/middleware/validateTokenHandler.ts:18-42 | a missing, non-string, empty or non-Bearer header gives 401 and `next(Error("Unauthorized User"))`, with `req.user` unset |
| TokenCheck.RejectsUnverified | server/src/middleware/validateTokenHandler.ts:27-31 | a token the verifier rejects gives 401 and `next(Error("Unauthorized User"))`, with `req.user` unset |
| TokenCheck.AcceptsVerified | server/src/middleware/validateTokenHandler.ts:27-34 | a non-empty token the verifier accepts sets `req.user` to the payload's user and calls `next()` once, with no status set |
| TokenCheck.ValidateToken | server/src/middleware/validateTokenHandler.ts:9-46 | on live objects, the status, `req.user` and the `next` calls are exactly those `Validate` decides, and no body is written |
| BearerRoundTrip.ExtractsWrappedToken | client/src/config/axiosInstance.tsx:17 | for a token without spaces, the interceptor's header starts with "Bearer" and its second space-separated field is the token |
| BearerRoundTrip.InterceptedRequestPasses | server/src/middleware/validateTokenHandler.ts:15-34 | a request carrying only the interceptor's header, with a valid non-empty space-free token, passes with `req.user` set and one `next()` |
| ErrorHandling.EffectiveStatus | server/src/middleware/errorHandler.ts:10 | the effective code is the response's status code when non-zero, otherwise 500 |
| ErrorHandling.Title | server/src/middleware/errorHandler.ts:12-52 | a title exists exactly for 400, 401, 403, 404 and 500 |
| ErrorHandling.ErrorHandler | server/src/middleware/errorHandler.ts:4-53 | a report is written iff the effective code is handled; it carries that code's title, `err.message` and `err.stack` |
| ErrorHandling.Titles | server/src/middleware/errorHandler.ts:12-51 | 400 "Validation Failed", 404 "Not Found", 401 "Unauthorized", 403 "Forbidden", 500 "Server Error" |
| ErrorHandling.TitlesDistinct | server/src/middleware/errorHandler.ts:12-51 | distinct handled codes have distinct titles |
| ErrorHandling.NoReportAtOk | server/src/middleware/errorHandler.ts:12-52 | with status 200 no body is written, since the switch has no default |
| Users.Register | server/src/controllers/userController.ts:6-50 | registration either leaves the collection unchanged or appends exactly one user and replies 201 |
| Users.MissingFieldRejected | server/src/controllers/userController.ts:18-21 | a falsy first name, email or password gives 400 "Please fill all the fields" and stores nothing |
| Users.LastNameOptional | server/src/controllers/userController.ts:18 | the last name plays no part in the outcome |
| Users.DuplicateRejected | server/src/controllers/userController.ts:24-28 | an email already stored gives 400 "User with same email already exists" and stores nothing |
| Users.RegistrationStoresHashed | server/src/controllers/userController.ts:30-43 | a new, complete registration appends one user with the given names and email and the hashed password, and replies 201 "User registered successfully" |
| Users.NothingCreatedRejected | server/src/controllers/userController.ts:41-46 | when create yields nothing the reply is 400 "Invalid user data" and nothing is stored |
| Users.RegistrationKeepsEmailsUnique | server/src/controllers/userController.ts:24-40 | if stored emails are unique before a registration, they are unique after it |
| Users.UserStore.RegisterUser | server/src/controllers/userController.ts:6-50 | the stored collection and the reply are exactly those `Register` decides |

## Left out

- dnd-kit's sensors, activation constraints and `rectIntersection` collision detection are not modelled. They are library geometry and timing; the `over` target is an input.
- Asynchrony is not modelled. Each request is a log entry and each completion is a separate method call. Late responses interleaving, and React's stale closure over `tasks`, are not captured: the updater and `find` read the same collection.
- Tasks.ArrayMove: defined only for in-range indices. The handlers always find both tasks in the same collection, so dnd-kit's handling of -1 indices is never reached.
- Home.DragOverMigrateOntoTask: assumes unique task ids, which the server assigns. With duplicate ids, every task sharing the active id would also change status.
- Home.SetStatusOnlyAt: also assumes unique ids, for the same reason.
- TokenCheck.Split: its contract only says that there is at least one field. What the fields are is stated by `SplitWithoutSeparator` and `SplitAfterWord`.
- The edit dialog is modelled as given the home page's setter. In the shipped wiring, client/src/components/taskBoard/Board.tsx:39-45 renders its cards without `setTasks`. The one card that does receive it, the drag overlay, shows no Edit button. So the dialog's `setTasks` is undefined, and the refetch after a successful edit (client/src/components/dialogs/EditTaskDialog.tsx:103-114) throws. Its catch only shows an error toast with an undefined message, and the board is not replaced. `EditTask.EditTaskDialog.RefetchSettled` models the dialog taken on its own, not this wiring.
- The toasts' display, React rendering and JSX are not modelled, nor are the layout, routing, navigation bar, task card, the stub dialogs and the view-details dialog. None of these holds core logic.
- The unused sort and search controls of the home page are not modelled: `sortType` never affects the order.
- Form field lengths count Dafny characters, not UTF-16 code units as JavaScript does.
- zod's email format rule, JWT signature checking and bcrypt are parameters (`isEmail`, `verify`, `hash`). Google OAuth is not modelled.
- The interceptor's rejection branch (client/src/config/axiosInstance.tsx:21-23) is not modelled. It passes the error on unchanged as a rejected promise, and promises are not modelled.
- `signupUser` and `loginUser` only log to the console, so they are not modelled.
- The server's `User.findOne` is a lookup over the stored collection. A rejected lookup is not modelled; a rejected `User.create` is (`CreateRejected`).
- The token middleware's second 401 (server/src/middleware/validateTokenHandler.ts:35-38) is kept. It runs only if the verifier accepts an empty or missing token, and then `next` is called twice. The real verifier rejects such tokens.
- Server wiring, routes, the task controller and persistence internals are not modelled. The user schema gives only the shape of a stored user and its unique email.
- A task's owner field is not modelled; the client never reads it.
