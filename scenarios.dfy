/**
 * Whole request sequences run against the model: the owner-scoped routes against the
 * unscoped ones, and a register / login / create / list / foreign delete session.
 */
module Scenarios {
  import opened Wrappers
  import opened ObjectIds
  import opened TodoModel
  import opened Http
  import opened Crypto
  import UserModel
  import AuthMiddleware
  import AuthRoutes
  import TodoRoutes
  import LegacyTodoControllers

  /** Bob cannot delete Alice's Todo through the owner-scoped route (404, Alice keeps
      it), but the unscoped controller deletes it for anyone who names its id. */
  method CrossTenantDelete(alice: ObjectId, bob: ObjectId)
    returns (scoped: Response, unscoped: Response, keptByScoped: seq<Task>, keptByUnscoped: seq<Task>)
    requires alice != bob
    ensures scoped == NotFound && |keptByScoped| == 1 && keptByScoped[0].owner == Some(alice)
    ensures unscoped == Response(200, DeletedBody(true)) && keptByUnscoped == []
  {
    var db := new TodoCollection();
    var body := TaskRequest(Some("Personal"), Some("Pay rent"), Some("No description"), None, None, None);
    var created := TodoRoutes.Create(db, alice, body, false);
    var id := db.tasks[0].id;
    scoped := TodoRoutes.Delete(db, bob, id, false);
    keptByScoped := WithOwner(db.tasks, Some(alice));
    unscoped := LegacyTodoControllers.DeleteTodos(db, id, false);
    keptByUnscoped := WithOwner(db.tasks, Some(alice));
  }

  /** Alice and Bob register and log in; the token each receives authenticates its
      holder at the resolver for the rest of the session. */
  method SignUpAndLogIn(bcrypt: Bcrypt, jwt: Jwt, env: Option<string>, now: int, aliceSalt: string, bobSalt: string)
    returns (users: seq<UserModel.User>, registered: Response, loggedIn: Response,
             aliceHeader: Option<string>, bobHeader: Option<string>)
    requires BcryptAxioms(bcrypt) && JwtAxioms(jwt)
    ensures registered.status == 201 && loggedIn.status == 200 && |users| == 2
    ensures users[0].email == "a@x.com" && users[1].email == "b@x.com" && users[0].id != users[1].id
    ensures AuthMiddleware.Authenticate(aliceHeader, users, jwt, env, now + 1, false) == AuthMiddleware.Authenticated(users[0])
    ensures AuthMiddleware.Authenticate(bobHeader, users, jwt, env, now + 1, false) == AuthMiddleware.Authenticated(users[1])
  {
    var db := new UserModel.UserCollection();
    registered := AuthRoutes.Register(db, Credentials("alice", "a@x.com", "pw1"), bcrypt, aliceSalt, false);
    var bobRegistered := AuthRoutes.Register(db, Credentials("bob", "b@x.com", "pw2"), bcrypt, bobSalt, false);
    users := db.users;
    assert UserModel.EmailsDistinct(users) && UserModel.IdsDistinct(users);

    AuthRoutes.RegisteredUserLogsIn(users, 0, "pw1", aliceSalt, bcrypt, jwt, env, now);
    AuthRoutes.RegisteredUserLogsIn(users, 1, "pw2", bobSalt, bcrypt, jwt, env, now);
    loggedIn := AuthRoutes.Login(users, Credentials("", "a@x.com", "pw1"), bcrypt, jwt, env, now, false);
    var bobLoggedIn := AuthRoutes.Login(users, Credentials("", "b@x.com", "pw2"), bcrypt, jwt, env, now, false);
    aliceHeader := Some("Bearer " + loggedIn.body.token);
    bobHeader := Some("Bearer " + bobLoggedIn.body.token);
    AuthRoutes.LoginTokenAuthenticates(users, Credentials("", "a@x.com", "pw1"), bcrypt, jwt, env, now, now + 1);
    AuthRoutes.LoginTokenAuthenticates(users, Credentials("", "b@x.com", "pw2"), bcrypt, jwt, env, now, now + 1);
  }

  /** With two authenticated users, Alice creates a Todo and lists it; Bob's delete of
      its id is a 404 and Alice's list is unchanged. */
  method ScopedSession(users: seq<UserModel.User>, alice: UserModel.User, bob: UserModel.User,
                       aliceHeader: Option<string>, bobHeader: Option<string>, jwt: Jwt, env: Option<string>, now: int)
    returns (created: Response, listed: Response, bobDeletes: Response, listedAfter: Response)
    requires alice.id != bob.id
    requires AuthMiddleware.Authenticate(aliceHeader, users, jwt, env, now, false) == AuthMiddleware.Authenticated(alice)
    requires AuthMiddleware.Authenticate(bobHeader, users, jwt, env, now, false) == AuthMiddleware.Authenticated(bob)
    ensures created.status == 201
    ensures listed.status == 200 && listed.body.TaskListBody? && |listed.body.items| == 1
    ensures listed.body.items[0].title == "Buy milk" && !listed.body.items[0].isCompleted
    ensures bobDeletes == NotFound
    ensures listedAfter == listed
  {
    var todos := new TodoCollection();
    var body := TaskRequest(Some("Personal"), Some("Buy milk"), Some("No description"), None, None, None);
    created := TodoRoutes.Dispatch(todos, users, aliceHeader, jwt, env, now, false, false, TodoRoutes.Post(body));
    var id := todos.tasks[0].id;
    listed := TodoRoutes.Dispatch(todos, users, aliceHeader, jwt, env, now, false, false, TodoRoutes.GetAll);
    bobDeletes := TodoRoutes.Dispatch(todos, users, bobHeader, jwt, env, now, false, false, TodoRoutes.Remove(id));
    listedAfter := TodoRoutes.Dispatch(todos, users, aliceHeader, jwt, env, now, false, false, TodoRoutes.GetAll);
  }

  /** Alice registers and logs in, creates a Todo with her token and lists it; Bob,
      logged in with his own token, tries to delete it and gets 404; Alice still has it. */
  method AliceAndBob(bcrypt: Bcrypt, jwt: Jwt, env: Option<string>, now: int, aliceSalt: string, bobSalt: string)
    returns (registered: Response, loggedIn: Response, created: Response, listed: Response,
             bobDeletes: Response, listedAfter: Response)
    requires BcryptAxioms(bcrypt) && JwtAxioms(jwt)
    ensures registered.status == 201 && loggedIn.status == 200 && created.status == 201
    ensures listed.status == 200 && listed.body.TaskListBody? && |listed.body.items| == 1
    ensures listed.body.items[0].title == "Buy milk" && !listed.body.items[0].isCompleted
    ensures bobDeletes == NotFound
    ensures listedAfter == listed
  {
    var users, aliceHeader, bobHeader;
    users, registered, loggedIn, aliceHeader, bobHeader := SignUpAndLogIn(bcrypt, jwt, env, now, aliceSalt, bobSalt);
    created, listed, bobDeletes, listedAfter :=
      ScopedSession(users, users[0], users[1], aliceHeader, bobHeader, jwt, env, now + 1);
  }
}
