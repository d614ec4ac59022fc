# Identity and ownership scoping of a per-user Todo service, in Dafny

This project models the backend's identity and ownership-scoping layer and proves its properties. The layer has four parts:

- **Credential store.** `/auth/register` and `/auth/login` keep a User collection. Passwords are stored as bcrypt hashes. Login issues a JSON Web Token over `{userId, email}` that expires after seven days.
- **Identity resolver.** `authenticateToken` takes the token from the `Authorization` header. It verifies the token, loads the User the token names, and then either answers 401/403 or calls `next()`.
- **Owner-scoped Todo routes.** These list, create, update and delete Todos. Every lookup is filtered by the authenticated caller's id.
- **Unscoped legacy handlers.** The Todo routes and controllers mounted by the root app act on the same collection with no owner filter.

The project also models the client's helper expressions. These build the add, edit and toggle requests and count completed and active Todos. An empty description travels as the sentinel `"No description"`.

Collections are classes that the handlers update in place:

- `TodoModel.TodoCollection` holds `seq<Task>`.
- `UserModel.UserCollection` holds `seq<User>`.

Each collection keeps an id counter that stands for ObjectId generation. Its `Valid()` invariant says two things: ids are distinct, and every stored record passed schema validation.

Each scoped handler is a method proved equal to a pure outcome function (`TodoRoutes.CreateOutcome` and the like). The key property is tenant isolation: for every owner value other than the caller's, the subsequence of Todos with that owner is unchanged. That property is proved about each outcome function and about the handler table that runs after authentication (`TodoRoutes.Handle`). For the router as a whole (`TodoRoutes.Route`, which `TodoRoutes.Dispatch` is proved equal to), `TodoRoutes.RouterIsolation` proves more. A request can change an owner's Todos only if it carries an unexpired, server-signed token for that owner.

Parameters stand in for the outside world:

- wall-clock time: `now`, in seconds;
- bcrypt's random salt: `salt`;
- the `JWT_SECRET` environment variable: `env`;
- a store or library call that throws: `fault`.

bcryptjs and jsonwebtoken are pairs of functions (`Crypto.Bcrypt`, `Crypto.Jwt`). Their expected behaviour is stated as axioms, the predicates `Crypto.BcryptAxioms` and `Crypto.JwtAxioms`, which the lemmas that need them take as preconditions. `CryptoWitness` builds concrete functions that satisfy both axiom sets, so the axioms are consistent. For JWT that means a space-free injective token encoding.

Behaviour of the code worth noting, all of it modelled as written:

- The scheme word before the token is never checked, so any first word works (`AuthMiddleware.SchemeIgnored`). Section 2.1 of RFC 6750 expects the `Bearer` scheme.
- An unset or empty `JWT_SECRET` falls back to the fixed secret `"your-secret-key"` (`Crypto.SigningSecret`).
- Registration answers 500 "Registration failed" for every thrown error, including a body that fails validation.
- A failing user lookup in the resolver answers 403, the same as a bad token.
- `owner` is optional in the Todo schema. Only the scoped routes set it.

## Model

| member | source | states |
|---|---|---|
| JsString.Split | backend/src/middleware/auth.middleware.js:7 | `split(' ')` always yields at least one segment; `JoinSplit`, `SplitJoin` and `SplitSegmentsFree` fix what the segments are |
| JsString.SplitSegmentsFree | backend/src/middleware/auth.middleware.js:7 | no segment of `split(' ')` contains a space |
| JsString.JoinSplit | backend/src/middleware/auth.middleware.js:7 | joining the segments of `split(' ')` with spaces gives back the header: empty segments are kept |
| JsString.SplitJoin | backend/src/middleware/auth.middleware.js:7 | splitting a space-join of space-free words gives back exactly those words |
| JsString.TrimEmpty | frontend/src/components/TodoApp.jsx:43 | `trim()` yields "" exactly when every character is JavaScript white space or a line terminator |
| JsString.Trim | frontend/src/components/TodoApp.jsx:43 | the trimmed string is no longer than the input and is empty or starts and ends with a character that is not white space |
| JsString.TrimSlice | frontend/src/components/TodoApp.jsx:43 | the trimmed string is the infix of the input between its leading and its trailing white space, and everything removed is white space |
| TodoModel.Validate | backend/src/models/todo.models.js:5-21 | a document is stored exactly when name, title and content are present and non-empty; the stored name, title and content are the document's; `isCompleted` defaults to false; id and owner are kept |
| TodoModel.ValidateAsDocument | backend/src/models/todo.models.js:3-28 | re-saving a conforming stored Todo writes it back unchanged |
| TodoModel.Project | backend/src/routes/todo.routes.js:19-25 | a response item carries exactly id, name, title, content and isCompleted of the record (no owner) |
| TodoModel.Views | backend/src/routes/todo.routes.js:19-25 | the mapped list has one item per stored Todo, in order, each its projection |
| TodoModel.WithOwner | backend/src/routes/todo.routes.js:15 | `find({owner})` yields exactly the stored Todos with that owner |
| TodoModel.WithOwnerAppend | backend/src/routes/todo.routes.js:15 | the owner filter distributes over concatenation, so results keep storage order |
| TodoModel.FindTask | backend/src/routes/todo.routes.js:75 | the index found matches id (and owner when scoped) and no earlier record does; `None` means no record matches |
| TodoModel.RemoveAt | backend/src/routes/todo.routes.js:112-115 | deletion removes one position and shifts the rest, in order |
| TodoModel.RemoveAtExactlyOne | backend/src/routes/todo.routes.js:112-115 | with distinct ids, deleting the record at i keeps every other record and only drops the one with that id |
| TodoModel.RemoveAtOthers | backend/src/routes/todo.routes.js:112-115 | deleting another owner's record leaves an owner's Todos unchanged |
| TodoModel.ReplaceAtOthers | backend/src/routes/todo.routes.js:81-86 | rewriting a record in place without changing its owner leaves every other owner's Todos unchanged |
| TodoModel.AppendOthers | backend/src/routes/todo.routes.js:42-47 | inserting a Todo with another owner leaves an owner's Todos unchanged |
| TodoModel.TodoCollection.Insert | backend/src/routes/todo.routes.js:42-47 | `Todo.create` validates and appends under a fresh id, or writes nothing |
| TodoModel.TodoCollection.SaveAt | backend/src/routes/todo.routes.js:86 | `save()` validates and writes the record back in place, or writes nothing |
| TodoModel.TodoCollection.DeleteAt | backend/src/routes/todo.routes.js:112-115 | the deleting query removes that record and nothing else |
| UserModel.Validate | src/models/user.models.js:5-22 | a User is stored exactly when username, email and password are non-empty; todoItems starts empty |
| UserModel.ToView | backend/src/routes/auth.routes.js:34-38 | the public user object is id, username and email (never the hash) |
| UserModel.FindByEmail | backend/src/routes/auth.routes.js:16 | `findOne({email})` finds the first User with that email, or reports that none has it |
| UserModel.FindById | backend/src/middleware/auth.middleware.js:14 | `findById` finds the first User with that id, or reports that none has it |
| UserModel.UserCollection.Insert | backend/src/routes/auth.routes.js:26-30 | `User.create` validates and appends under a fresh id, or writes nothing |
| Crypto.SigningSecret | backend/src/middleware/auth.middleware.js:13 | signer and verifier use one secret: `JWT_SECRET` when set and non-empty, else the fixed fallback |
| AuthMiddleware.BearerToken | backend/src/middleware/auth.middleware.js:7-11 | a missing header has no token; a token is found only as a non-empty, space-free second segment |
| AuthMiddleware.TokenIsSecondWord | backend/src/middleware/auth.middleware.js:7-11 | the token is the second space-separated word whatever precedes or follows it; an empty second word (two spaces) means 401 |
| AuthMiddleware.NoSpaceNoToken | backend/src/middleware/auth.middleware.js:7-11 | a header without a space has no token |
| AuthMiddleware.Authenticate | backend/src/middleware/auth.middleware.js:4-25 | missing token iff no token extracted; 403 iff the token fails verification or the lookup throws; 401 unknown user iff the verified id names no User; otherwise the stored User with the claimed id |
| AuthMiddleware.Reply | backend/src/middleware/auth.middleware.js:9-25 | exactly one of: `next()` is called (on success), or a response is sent: 401 "Access token required", 403 "Invalid or expired token", or 401 "Invalid token" |
| AuthMiddleware.SchemeIgnored | backend/src/middleware/auth.middleware.js:7 | any first word authenticates exactly like `Bearer` |
| AuthMiddleware.SignedTokenAuthenticates | backend/src/middleware/auth.middleware.js:13-21 | a token signed with the server secret for a stored User authenticates as that User before its expiry, and is rejected with 403 after it |
| AuthMiddleware.ForeignSecretRejected | backend/src/middleware/auth.middleware.js:13-24 | a token signed with any other secret is rejected with 403 |
| AuthMiddleware.UnknownUserRejected | backend/src/middleware/auth.middleware.js:14-18 | a valid token naming no stored User answers 401 "Invalid token" |
| AuthMiddleware.AuthenticatedMeansSigned | backend/src/middleware/auth.middleware.js:13-20 | whoever authenticates presented an unexpired token signed with the server secret over its own id |
| AuthRoutes.Register | backend/src/routes/auth.routes.js:11-44 | duplicate email: 400 and nothing changes; else the User is stored with `hash(password, 10)`, answering 201 without the hash; failures: 500 and nothing changes; email uniqueness is preserved |
| AuthRoutes.Login | backend/src/routes/auth.routes.js:47-83 | 500 "Login failed" exactly when a call throws; otherwise 200 exactly for a found email whose password compares, with a token over `{userId, email}` expiring in seven days and the User without its hash; every other answer, unknown email or wrong password, is the same 401 "Invalid credentials" |
| AuthRoutes.NoAccountEnumeration | backend/src/routes/auth.routes.js:52-61 | an unknown email and a wrong password give identical responses |
| AuthRoutes.RegisteredUserLogsIn | backend/src/routes/auth.routes.js:57-78 | the registered password logs in and yields the signed token for that User |
| AuthRoutes.WrongPasswordRefused | backend/src/routes/auth.routes.js:57-61 | any other password is refused with the shared 401 |
| AuthRoutes.LoginTokenAuthenticates | backend/src/routes/auth.routes.js:64-68 | the login token authenticates that User at the resolver for seven days and is rejected with 403 afterwards |
| TodoRoutes.ListTodos | backend/src/routes/todo.routes.js:13-32 | 200 with the caller's Todos in storage order, projected; 500 on failure |
| TodoRoutes.ListIsolation | backend/src/routes/todo.routes.js:15-26 | every Todo of the caller is listed and no Todo of anyone else is |
| TodoRoutes.CreationDocument | backend/src/routes/todo.routes.js:39-47 | the created document takes name, title and content from the body and the owner from the token; `isCompleted` is left to the default |
| TodoRoutes.OwnerNotFromBody | backend/src/routes/todo.routes.js:39-47 | bodies agreeing on name, title and content create the same document whatever owner they carry |
| TodoRoutes.PatchTask | backend/src/routes/todo.routes.js:72-86 | each of name, title, content and isCompleted takes the body's value when defined, else keeps its own; id and owner never change; rejected exactly when a required string would be empty |
| TodoRoutes.PatchCompletionOnly | backend/src/routes/todo.routes.js:84 | a patch of only `isCompleted` (including false) changes only the flag |
| TodoRoutes.PatchIgnoresOwnerField | backend/src/routes/todo.routes.js:72 | an `owner` in the patch body has no effect |
| TodoRoutes.CreateOutcome | backend/src/routes/todo.routes.js:37-64 | a fault answers 400 with no change; otherwise 201 iff the document validates, appending one Todo with the body's name, title and content, owned by the caller and not completed; else 400 and nothing changes; other owners' Todos unchanged |
| TodoRoutes.UpdateOutcome | backend/src/routes/todo.routes.js:69-102 | a fault answers 400 {updated:false} with no change; 404 iff no Todo has that id and the caller as owner; the owner's Todo with a valid patch gives 200 and is rewritten with the patch; an invalid patch gives 400 and nothing changes; other owners' Todos unchanged |
| TodoRoutes.DeleteOutcome | backend/src/routes/todo.routes.js:107-126 | a fault answers 400 {deleted:false} with no change; 404 iff no Todo has that id and the caller as owner; otherwise 200 {deleted:true}, removing exactly that Todo; other owners' Todos unchanged |
| TodoRoutes.Create | backend/src/routes/todo.routes.js:37-64 | the handler's response and new collection are those of `CreateOutcome` |
| TodoRoutes.Update | backend/src/routes/todo.routes.js:69-102 | per-field assignment then save gives the response and collection of `UpdateOutcome` |
| TodoRoutes.Delete | backend/src/routes/todo.routes.js:107-126 | the handler's response and new collection are those of `DeleteOutcome` |
| TodoRoutes.ForeignTaskNotFound | backend/src/routes/todo.routes.js:75-78 | another user's Todo id is not found, exactly like an absent id |
| TodoRoutes.DeleteRemovesOnlyTarget | backend/src/routes/todo.routes.js:112-121 | a successful delete removes exactly the record with that id |
| TodoRoutes.Handle | backend/src/routes/todo.routes.js:8 | whichever handler runs, other owners' Todos are unchanged |
| TodoRoutes.Route | backend/src/routes/todo.routes.js:8 | a request that does not authenticate gets the resolver's 401/403 and changes nothing; an authenticated request changes no Todo of another owner |
| TodoRoutes.Dispatch | backend/src/routes/todo.routes.js:8 | the response and new collection are those of the router: a request that does not authenticate gets the resolver's 401/403 and changes nothing; otherwise the handler runs with the authenticated User's id |
| TodoRoutes.RouterIsolation | backend/src/routes/todo.routes.js:8-126 | a request changes the Todos of an owner only if its header carries an unexpired token signed with the server secret over that owner's id; Todos without an owner are never changed |
| LegacyTodoRoutes.ListAll | src/routes/todo.routes.js:7-22 | every Todo of every user, projected, with 200; a failure sends nothing |
| LegacyTodoRoutes.ListAllExposesEveryOwner | src/routes/todo.routes.js:9-18 | every stored Todo is listed regardless of owner |
| LegacyTodoRoutes.UnownedDocument | src/routes/todo.routes.js:26-31 | the created document has no owner and takes name, title and content from the body |
| LegacyTodoRoutes.RetitleTask | src/routes/todo.routes.js:39-45 | only the title changes, to `newTitle`; an absent or empty `newTitle` fails validation |
| LegacyTodoRoutes.PostTodo | src/routes/todo.routes.js:25-33 | on success appends an unowned Todo and echoes the request body with 201; on failure no response is sent and nothing changes |
| LegacyTodoRoutes.PatchTodo | src/routes/todo.routes.js:36-52 | 404 and no change for an absent id; else title only, 201 {updated:true}; failures 400 {updated:false} with no change |
| LegacyTodoRoutes.DeleteTodo | src/routes/todo.routes.js:55-69 | 404 and no change for an absent id; else exactly that record is removed with 201 {deleted:true}; failures 400 {deleted:false} |
| LegacyTodoControllers.GetTodos | src/controllers/todo2.controllers.js:6-25 | the unscoped list with 200; 500 on failure |
| LegacyTodoControllers.PostTodos | src/controllers/todo2.controllers.js:29-42 | appends an unowned Todo and answers 201 with the whole record; 400 and no change on failure |
| LegacyTodoControllers.PatchTodos | src/controllers/todo2.controllers.js:46-66 | 404 and no change for an absent id; else title only, 200 {updated:true}; failures 400 with no change |
| LegacyTodoControllers.DeleteTodos | src/controllers/todo2.controllers.js:70-88 | 404 and no change for an absent id; else exactly that record is removed with 200 {deleted:true}; failures 400 |
| TodoApp.OrElse | frontend/src/components/TodoApp.jsx:55 | `s \|\| fallback` is the fallback exactly for the empty string |
| TodoApp.NewTaskRequest | frontend/src/components/TodoApp.jsx:41-56 | nothing is sent iff the title is all white space; else name "Personal", the untrimmed title, and the sentinel for an empty description |
| TodoApp.NewTaskAccepted | frontend/src/components/TodoApp.jsx:52-56 | every request the add form sends passes the server's schema |
| TodoApp.EditFormContent | frontend/src/components/TodoApp.jsx:409-412 | the edit form shows "" for the sentinel and the stored description otherwise |
| TodoApp.EditSubmission | frontend/src/components/TodoApp.jsx:414-419 | an edit sends only the title and a non-empty description |
| TodoApp.EditRoundTrip | frontend/src/components/TodoApp.jsx:409-419 | opening and saving unchanged sends back the stored description iff it is non-empty |
| TodoApp.EditKeepsOtherFields | frontend/src/components/TodoApp.jsx:416-419 | under the server's partial update an edit keeps name, flag, id and owner; saving unchanged leaves the Todo as it was |
| TodoApp.ToggleRequest | frontend/src/components/TodoApp.jsx:132-134 | toggling sends only the negated flag |
| TodoApp.ToggleFlips | frontend/src/components/TodoApp.jsx:132-134 | the server then flips the flag and changes nothing else |
| TodoApp.CompletedCount | frontend/src/components/TodoApp.jsx:148 | the completed counter never exceeds the number of Todos |
| TodoApp.CountersPartition | frontend/src/components/TodoApp.jsx:182-193 | active counts exactly the Todos not completed and is never negative; active + completed = total |
| TodoApp.ActiveCount | frontend/src/components/TodoApp.jsx:187 | the active counter lies between 0 and the number of Todos; `CountersPartition` shows it counts exactly the Todos not completed |
| TodoApp.ShownAfterEdit | frontend/src/components/TodoApp.jsx:236 | an edited description is displayed iff it was typed non-empty and differs from the sentinel |
| TodoApp.ShowsContent | frontend/src/components/TodoApp.jsx:236 | a card shows a description exactly when the edit form would open with a non-empty description |
| Scenarios.CrossTenantDelete | src/controllers/todo2.controllers.js:70-88 | Bob's scoped delete of Alice's Todo is a 404 and she keeps it; the unscoped controller deletes it for him |
| Scenarios.SignUpAndLogIn | backend/src/routes/auth.routes.js:11-83 | two users who register and log in each get a token that authenticates exactly them at the resolver |
| Scenarios.ScopedSession | backend/src/routes/todo.routes.js:8-126 | with two authenticated users, Alice's created Todo is listed for her; Bob's delete of its id is a 404 and her list is unchanged |
| Scenarios.AliceAndBob | backend/src/routes/todo.routes.js:8-126 | register, login, create and list succeed for Alice with her token; Bob's delete with his own token is a 404 and Alice's list is unchanged |

## Findings

| source | as written | input that shows it | evidently intended | confidence | as-written member | corrected member |
|---|---|---|---|---|---|---|
| src/controllers/todo2.controllers.js:75-81 | the Todo is looked up and deleted by id alone, with no authentication and no owner filter | Alice creates a Todo; anyone sends DELETE with its id | the delete matches both id and owner, so it is a 404 for anyone but the owner | not executed; the unscoped handlers are the older variant, and the backend app replaces them | Scenarios.CrossTenantDelete | TodoRoutes.DeleteOutcome |

## Left out

- Timestamps: `createdAt`/`updatedAt`, which Mongoose maintains, are not modelled. No property here depends on them.
- Mongoose casting: JSON values that are not strings (numbers, `null`) and casting them are not modelled. Request fields are absent or strings (absent or booleans for `isCompleted`).
- ObjectId casting: a malformed id makes the lookup throw. That case is folded into `fault`, which gives the same 400 answer.
- Register and login bodies: a body lacking a field is not modelled. Mongoose's handling of `{email: undefined}` in a filter and bcrypt's error on an undefined password are library behaviour.
- Store failures: every throwing call in a handler is one `fault` flag checked before the handler acts. A failed `create` or `save` writes nothing, so where the throw happens does not change the answer.
- Concurrency: the check-then-insert in register can race, because the schema has no unique index on email. Likewise the legacy delete's separate `findById` and `findByIdAndDelete` calls can race. Requests are modelled one at a time.
- LegacyTodoRoutes.PostTodo: a rejected `Todo.create` is an unhandled promise rejection, because the handler has no try/catch. The model assumes Express 4, where no response is sent. It does not model what the runtime then does: Node 15 and later end the process by default, and Express 5 would answer 500 from its default error handler.
- Crypto.BcryptAxioms: assumes collision freedom. Real bcrypt compares only the first 72 bytes of a password.
- bcrypt and jsonwebtoken internals: the algorithms are not modelled. They are functions constrained by axioms, and `Crypto.JwtAxioms` treats every verification failure the same way at the resolver.
- User.todoItems: no handler updates it, so the model never changes it.
- I/O and wiring: the database connection, the listening server, Express mounting, CORS, body parsing and logging are not modelled.
- Frontend: rendering, dialogs, React state, `fetch` and `localStorage` are not modelled. Only the listed helper expressions are.
- JsString.Split: its own contract only promises at least one segment. Its meaning is in `JsString.JoinSplit`, `JsString.SplitJoin` and `JsString.SplitSegmentsFree`.
- TodoApp.CompletedCount: its own contract only bounds the count. `TodoApp.CountersPartition` relates it to the active counter.
