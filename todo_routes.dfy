/**
 * The owner-scoped Todo routes (backend/src/routes/todo.routes.js). Every handler runs
 * behind `authenticateToken` and takes the authenticated User's id as `caller`; none
 * reads an owner from the request. `fault` stands for a store call throwing (a
 * connection failure, or an id that is not a valid ObjectId).
 */
module TodoRoutes {
  import opened Wrappers
  import opened ObjectIds
  import opened TodoModel
  import opened Http
  import opened Crypto
  import UserModel
  import AuthMiddleware

  const CreateFailed := Response(400, ErrorBody("Failed to create todo"))
  const UpdateFailed := Response(400, UpdatedBody(false, None))
  const DeleteFailed := Response(400, DeletedBody(false))

  /** GET /todo: the caller's Todos, in storage order, projected. */
  function ListTodos(tasks: seq<Task>, caller: ObjectId, fault: bool): (r: Response)
    ensures fault ==> r == Response(500, ErrorBody("Failed to fetch todos"))
    ensures !fault ==> r.status == 200 && r.body.TaskListBody?
    ensures !fault ==> r.body.items == Views(WithOwner(tasks, Some(caller)))
  {
    if fault then Response(500, ErrorBody("Failed to fetch todos"))
    else Response(200, TaskListBody(Views(WithOwner(tasks, Some(caller)))))
  }

  /** The list shows every Todo of the caller and nothing of anyone else's. */
  lemma ListIsolation(tasks: seq<Task>, caller: ObjectId, t: Task)
    requires IdsDistinct(tasks) && t in tasks
    ensures var items := ListTodos(tasks, caller, false).body.items;
      && (t.owner == Some(caller) ==> Project(t) in items)
      && (t.owner != Some(caller) ==> forall v :: v in items ==> v.id != t.id)
  {
    var owned := WithOwner(tasks, Some(caller));
    var items := Views(owned);
    if t.owner == Some(caller) {
      var j :| 0 <= j < |owned| && owned[j] == t;
      assert items[j] == Project(t);
    } else {
      forall v | v in items ensures v.id != t.id {
        var j :| 0 <= j < |items| && items[j] == v;
        var i :| 0 <= i < |tasks| && tasks[i] == owned[j];
        var i' :| 0 <= i' < |tasks| && tasks[i'] == t;
        assert i != i';
      }
    }
  }

  /** The document POST /todo creates: name, title and content from the body, the owner
      from the token; any `owner` or `isCompleted` in the body is ignored. */
  function CreationDocument(body: TaskRequest, caller: ObjectId): (d: Document)
    ensures d.owner == Some(caller) && d.isCompleted.None?
    ensures d.name == body.name && d.title == body.title && d.content == body.content
  {
    Document(body.name, body.title, body.content, None, Some(caller))
  }

  /** The client cannot pick the owner: bodies that agree on name, title and content
      create the same document, whatever else they carry. */
  lemma OwnerNotFromBody(b1: TaskRequest, b2: TaskRequest, caller: ObjectId)
    requires b1.name == b2.name && b1.title == b2.title && b1.content == b2.content
    ensures CreationDocument(b1, caller) == CreationDocument(b2, caller)
  {
  }

  /** `if (field !== undefined) doc.field = field` for name, title, content and
      isCompleted, then schema validation on save. */
  function PatchTask(t: Task, body: TaskRequest): (r: Option<Task>)
    ensures r.Some? <==>
      body.name.GetOr(t.name) != "" && body.title.GetOr(t.title) != "" && body.content.GetOr(t.content) != ""
    ensures r.Some? ==> r.value.id == t.id && r.value.owner == t.owner
    ensures r.Some? ==>
      && r.value.name == body.name.GetOr(t.name)
      && r.value.title == body.title.GetOr(t.title)
      && r.value.content == body.content.GetOr(t.content)
      && r.value.isCompleted == body.isCompleted.GetOr(t.isCompleted)
  {
    var d := AsDocument(t);
    var d := if body.name.Some? then d.(name := body.name) else d;
    var d := if body.title.Some? then d.(title := body.title) else d;
    var d := if body.content.Some? then d.(content := body.content) else d;
    var d := if body.isCompleted.Some? then d.(isCompleted := body.isCompleted) else d;
    Validate(t.id, d)
  }

  /** A patch holding only `isCompleted` changes only the flag, and `false` does clear it
      (the test is `!== undefined`, not truthiness). */
  lemma PatchCompletionOnly(t: Task, done: bool)
    requires Conforms(t)
    ensures PatchTask(t, TaskRequest(None, None, None, Some(done), None, None)) == Some(t.(isCompleted := done))
  {
  }

  /** The patch body cannot move a Todo to another owner or rename its id. */
  lemma PatchIgnoresOwnerField(t: Task, body: TaskRequest, owner: Option<ObjectId>)
    ensures PatchTask(t, body) == PatchTask(t, body.(owner := owner))
  {
  }

  /** What a handler answers and what the collection holds afterwards. */
  datatype Outcome = Outcome(response: Response, tasks: seq<Task>)

  /** POST /todo, as a function of the collection before it. */
  function CreateOutcome(tasks: seq<Task>, nextId: ObjectId, caller: ObjectId, body: TaskRequest, fault: bool)
    : (o: Outcome)
    ensures fault ==> o == Outcome(CreateFailed, tasks)
    ensures o.response.status == 201 <==> !fault && Validate(nextId, CreationDocument(body, caller)).Some?
    ensures o.response.status != 201 ==> o.response == CreateFailed && o.tasks == tasks
    ensures o.response.status == 201 ==>
      var t := Validate(nextId, CreationDocument(body, caller)).value;
      && o.tasks == tasks + [t]
      && t.id == nextId && t.owner == Some(caller) && !t.isCompleted
      && t.name == body.name.value && t.title == body.title.value && t.content == body.content.value
      && o.response == Response(201, TaskCreatedBody("Todo created", Project(t)))
    ensures forall w :: w != Some(caller) ==> WithOwner(o.tasks, w) == WithOwner(tasks, w)
  {
    if fault then Outcome(CreateFailed, tasks)
    else
      match Validate(nextId, CreationDocument(body, caller))
      case None => Outcome(CreateFailed, tasks)
      case Some(t) =>
        assert forall w :: w != Some(caller) ==> WithOwner(tasks + [t], w) == WithOwner(tasks, w) by {
          forall w | w != Some(caller) { AppendOthers(tasks, t, w); }
        }
        Outcome(Response(201, TaskCreatedBody("Todo created", Project(t))), tasks + [t])
  }

  /** PATCH /todo/:id, as a function of the collection before it. The lookup is by id
      AND owner, so another user's Todo is "not found" exactly like a missing one. */
  function UpdateOutcome(tasks: seq<Task>, caller: ObjectId, id: ObjectId, body: TaskRequest, fault: bool)
    : (o: Outcome)
    ensures fault ==> o == Outcome(UpdateFailed, tasks)
    ensures o.response == NotFound <==> !fault && FindTask(tasks, id, Some(caller)).None?
    ensures o.response.status != 200 ==> o.tasks == tasks
    ensures o.response.status == 200 ==> !fault && FindTask(tasks, id, Some(caller)).Some?
    ensures !fault && FindTask(tasks, id, Some(caller)).Some? ==>
      var i := FindTask(tasks, id, Some(caller)).value;
      && (PatchTask(tasks[i], body).Some? ==> o.response.status == 200)
      && (PatchTask(tasks[i], body).None? ==> o == Outcome(UpdateFailed, tasks))
    ensures o.response.status == 200 ==>
      var i := FindTask(tasks, id, Some(caller)).value;
      && PatchTask(tasks[i], body).Some?
      && o.tasks == tasks[i := PatchTask(tasks[i], body).value]
      && o.response == Response(200, UpdatedBody(true, Some(Project(o.tasks[i]))))
    ensures o.response.status in {200, 400, 404}
    ensures forall w :: w != Some(caller) ==> WithOwner(o.tasks, w) == WithOwner(tasks, w)
  {
    if fault then Outcome(UpdateFailed, tasks)
    else
      match FindTask(tasks, id, Some(caller))
      case None => Outcome(NotFound, tasks)
      case Some(i) =>
        match PatchTask(tasks[i], body)
        case None => Outcome(UpdateFailed, tasks)
        case Some(t) =>
          assert forall w :: w != Some(caller) ==> WithOwner(tasks[i := t], w) == WithOwner(tasks, w) by {
            forall w | w != Some(caller) { ReplaceAtOthers(tasks, i, t, w); }
          }
          Outcome(Response(200, UpdatedBody(true, Some(Project(t)))), tasks[i := t])
  }

  /** DELETE /todo/:id, as a function of the collection before it: the same two-key
      match as PATCH. */
  function DeleteOutcome(tasks: seq<Task>, caller: ObjectId, id: ObjectId, fault: bool): (o: Outcome)
    ensures fault ==> o == Outcome(DeleteFailed, tasks)
    ensures !fault && FindTask(tasks, id, Some(caller)).Some? ==> o.response.status == 200
    ensures o.response == NotFound <==> !fault && FindTask(tasks, id, Some(caller)).None?
    ensures o.response.status != 200 ==> o.tasks == tasks
    ensures o.response.status == 200 ==> !fault && FindTask(tasks, id, Some(caller)).Some?
    ensures o.response.status == 200 ==>
      && o.response == Response(200, DeletedBody(true))
      && o.tasks == RemoveAt(tasks, FindTask(tasks, id, Some(caller)).value)
    ensures o.response.status in {200, 400, 404}
    ensures forall w :: w != Some(caller) ==> WithOwner(o.tasks, w) == WithOwner(tasks, w)
  {
    if fault then Outcome(DeleteFailed, tasks)
    else
      match FindTask(tasks, id, Some(caller))
      case None => Outcome(NotFound, tasks)
      case Some(i) =>
        assert forall w :: w != Some(caller) ==> WithOwner(RemoveAt(tasks, i), w) == WithOwner(tasks, w) by {
          forall w | w != Some(caller) { RemoveAtOthers(tasks, i, w); }
        }
        Outcome(Response(200, DeletedBody(true)), RemoveAt(tasks, i))
  }

  /** POST /todo. */
  method Create(db: TodoCollection, caller: ObjectId, body: TaskRequest, fault: bool) returns (r: Response)
    requires db.Valid()
    modifies db
    ensures db.Valid()
    ensures Outcome(r, db.tasks) == CreateOutcome(old(db.tasks), old(db.nextId), caller, body, fault)
  {
    if fault {
      return CreateFailed;
    }
    var created := db.Insert(CreationDocument(body, caller));
    if created.None? {
      return CreateFailed;
    }
    r := Response(201, TaskCreatedBody("Todo created", Project(created.value)));
  }

  /** PATCH /todo/:id: assigns each of name, title, content and isCompleted that the body
      defines on the found document, then saves it. */
  method Update(db: TodoCollection, caller: ObjectId, id: ObjectId, body: TaskRequest, fault: bool)
    returns (r: Response)
    requires db.Valid()
    modifies db
    ensures db.Valid()
    ensures Outcome(r, db.tasks) == UpdateOutcome(old(db.tasks), caller, id, body, fault)
  {
    if fault {
      return UpdateFailed;
    }
    var found := FindTask(db.tasks, id, Some(caller));
    if found.None? {
      return NotFound;
    }
    var i := found.value;
    var doc := AsDocument(db.tasks[i]);
    if body.name.Some? { doc := doc.(name := body.name); }
    if body.title.Some? { doc := doc.(title := body.title); }
    if body.content.Some? { doc := doc.(content := body.content); }
    if body.isCompleted.Some? { doc := doc.(isCompleted := body.isCompleted); }
    var saved := db.SaveAt(i, doc);
    if saved.None? {
      return UpdateFailed;
    }
    r := Response(200, UpdatedBody(true, Some(Project(saved.value))));
  }

  /** DELETE /todo/:id. */
  method Delete(db: TodoCollection, caller: ObjectId, id: ObjectId, fault: bool) returns (r: Response)
    requires db.Valid()
    modifies db
    ensures db.Valid()
    ensures Outcome(r, db.tasks) == DeleteOutcome(old(db.tasks), caller, id, fault)
  {
    if fault {
      return DeleteFailed;
    }
    var found := FindTask(db.tasks, id, Some(caller));
    if found.None? {
      return NotFound;
    }
    db.DeleteAt(found.value);
    r := Response(200, DeletedBody(true));
  }

  /** Another user's Todo id is looked up exactly like an id that does not exist: PATCH
      and DELETE answer 404 and change nothing. */
  lemma ForeignTaskNotFound(tasks: seq<Task>, i: nat, caller: ObjectId)
    requires IdsDistinct(tasks) && i < |tasks| && tasks[i].owner != Some(caller)
    ensures FindTask(tasks, tasks[i].id, Some(caller)) == None
  {
  }

  /** A successful delete removes exactly the one record with that id. */
  lemma DeleteRemovesOnlyTarget(tasks: seq<Task>, caller: ObjectId, id: ObjectId)
    requires IdsDistinct(tasks) && FindTask(tasks, id, Some(caller)).Some?
    ensures forall t :: t in RemoveAt(tasks, FindTask(tasks, id, Some(caller)).value) <==> t in tasks && t.id != id
  {
    RemoveAtExactlyOne(tasks, FindTask(tasks, id, Some(caller)).value);
  }

  /** A request to a Todo route: `router.use(authenticateToken)` runs first. */
  datatype TodoCall =
    | GetAll
    | Post(body: TaskRequest)
    | Patch(id: ObjectId, patch: TaskRequest)
    | Remove(id: ObjectId)

  /** The handler a call reaches once the caller is known. */
  function Handle(tasks: seq<Task>, nextId: ObjectId, caller: ObjectId, call: TodoCall, fault: bool): (o: Outcome)
    ensures forall w :: w != Some(caller) ==> WithOwner(o.tasks, w) == WithOwner(tasks, w)
  {
    match call
    case GetAll => Outcome(ListTodos(tasks, caller, fault), tasks)
    case Post(body) => CreateOutcome(tasks, nextId, caller, body, fault)
    case Patch(id, body) => UpdateOutcome(tasks, caller, id, body, fault)
    case Remove(id) => DeleteOutcome(tasks, caller, id, fault)
  }

  /** The router as a function of the collection before the request: the resolver's
      reply with nothing changed, or the handler run for the authenticated User. */
  function Route(tasks: seq<Task>, nextId: ObjectId, users: seq<UserModel.User>, header: Option<string>,
                 jwt: Jwt, env: Option<string>, now: int, authFault: bool, storeFault: bool,
                 call: TodoCall): (o: Outcome)
    ensures var a := AuthMiddleware.Authenticate(header, users, jwt, env, now, authFault);
      && (!a.Authenticated? ==> Some(o.response) == AuthMiddleware.Reply(a) && o.tasks == tasks)
      && (a.Authenticated? ==> forall w :: w != Some(a.user.id) ==> WithOwner(o.tasks, w) == WithOwner(tasks, w))
  {
    var a := AuthMiddleware.Authenticate(header, users, jwt, env, now, authFault);
    if a.Authenticated? then Handle(tasks, nextId, a.user.id, call, storeFault)
    else Outcome(AuthMiddleware.Reply(a).value, tasks)
  }

  /** The router: authenticate, and only then run the handler with the authenticated
      User's id. `authFault` and `storeFault` are the two places a store call can throw. */
  method Dispatch(db: TodoCollection, users: seq<UserModel.User>, header: Option<string>, jwt: Jwt,
                  env: Option<string>, now: int, authFault: bool, storeFault: bool, call: TodoCall)
    returns (r: Response)
    requires db.Valid()
    modifies db
    ensures db.Valid()
    ensures Outcome(r, db.tasks) == Route(old(db.tasks), old(db.nextId), users, header, jwt, env, now, authFault, storeFault, call)
  {
    var outcome := AuthMiddleware.Authenticate(header, users, jwt, env, now, authFault);
    if !outcome.Authenticated? {
      return AuthMiddleware.Reply(outcome).value;
    }
    var caller := outcome.user.id;
    match call
    case GetAll => r := ListTodos(db.tasks, caller, storeFault);
    case Post(body) => r := Create(db, caller, body, storeFault);
    case Patch(id, body) => r := Update(db, caller, id, body, storeFault);
    case Remove(id) => r := Delete(db, caller, id, storeFault);
  }

  /** A request can change the Todos of an owner only if it carries, in its
      `Authorization` header, an unexpired token signed with the server's secret over
      that owner's id; in particular no request changes the Todos without an owner. */
  lemma RouterIsolation(tasks: seq<Task>, nextId: ObjectId, users: seq<UserModel.User>, header: Option<string>,
                        jwt: Jwt, env: Option<string>, now: int, authFault: bool, storeFault: bool,
                        call: TodoCall, w: Option<ObjectId>)
    requires JwtAxioms(jwt)
    requires WithOwner(Route(tasks, nextId, users, header, jwt, env, now, authFault, storeFault, call).tasks, w)
          != WithOwner(tasks, w)
    ensures w.Some?
    ensures exists email, exp ::
              now < exp && AuthMiddleware.BearerToken(header) == Some(jwt.sign(Claims(w.value, email), SigningSecret(env), exp))
  {
    var a := AuthMiddleware.Authenticate(header, users, jwt, env, now, authFault);
    assert a.Authenticated?;
    assert w == Some(a.user.id);
    AuthMiddleware.AuthenticatedMeansSigned(header, users, jwt, env, now, authFault);
  }
}
