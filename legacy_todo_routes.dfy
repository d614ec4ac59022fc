/**
 * The unscoped Todo routes mounted by the root app (src/routes/todo.routes.js): no
 * authentication, no owner filter, and PATCH renames from `newTitle` only.
 * A result of `None` means the handler sends no response at all.
 */
module LegacyTodoRoutes {
  import opened Wrappers
  import opened ObjectIds
  import opened TodoModel
  import opened Http

  /** GET /todo: every Todo of every user; a failure is swallowed and nothing is sent. */
  function ListAll(tasks: seq<Task>, fault: bool): (r: Option<Response>)
    ensures r.None? <==> fault
    ensures r.Some? ==> r.value.status == 200 && r.value.body == TaskListBody(Views(tasks))
  {
    if fault then None else Some(Response(200, TaskListBody(Views(tasks))))
  }

  /** Whatever its owner, every stored Todo is listed. */
  lemma ListAllExposesEveryOwner(tasks: seq<Task>, t: Task)
    requires t in tasks
    ensures Project(t) in ListAll(tasks, false).value.body.items
  {
    var i :| 0 <= i < |tasks| && tasks[i] == t;
    assert Views(tasks)[i] == Project(t);
  }

  /** The document POST creates: name, title and content, no owner. */
  function UnownedDocument(body: TaskRequest): (d: Document)
    ensures d.owner.None? && d.isCompleted.None?
    ensures d.name == body.name && d.title == body.title && d.content == body.content
  {
    Document(body.name, body.title, body.content, None, None)
  }

  /** `findTodo.title = req.body.newTitle` then `save()`: an absent or empty `newTitle`
      fails validation; otherwise only the title changes. */
  function RetitleTask(t: Task, newTitle: Option<string>): (r: Option<Task>)
    ensures r.Some? <==> RequiredString(newTitle) && t.name != "" && t.content != ""
    ensures r.Some? ==> r.value == t.(title := newTitle.value)
  {
    Validate(t.id, AsDocument(t).(title := newTitle))
  }

  /** POST /todo: no try/catch, so a rejected `create` leaves the request unanswered;
      success echoes the request body rather than the stored record. */
  method PostTodo(db: TodoCollection, body: TaskRequest, fault: bool) returns (r: Option<Response>)
    requires db.Valid()
    modifies db
    ensures db.Valid()
    ensures fault ==> r.None? && db.tasks == old(db.tasks)
    ensures !fault ==>
      match Validate(old(db.nextId), UnownedDocument(body))
      case None => r.None? && db.tasks == old(db.tasks)
      case Some(t) => db.tasks == old(db.tasks) + [t] && r == Some(Response(201, EchoBody("received", body)))
  {
    if fault {
      return None;
    }
    var created := db.Insert(UnownedDocument(body));
    if created.None? {
      return None;
    }
    r := Some(Response(201, EchoBody("received", body)));
  }

  /** PATCH /todo/:id: looks up by id alone. */
  method PatchTodo(db: TodoCollection, id: ObjectId, body: TaskRequest, fault: bool) returns (r: Response)
    requires db.Valid()
    modifies db
    ensures db.Valid()
    ensures fault ==> r == Response(400, UpdatedBody(false, None)) && db.tasks == old(db.tasks)
    ensures !fault ==>
      match FindTask(old(db.tasks), id, None)
      case None => r == NotFound && db.tasks == old(db.tasks)
      case Some(i) =>
        match RetitleTask(old(db.tasks)[i], body.newTitle)
        case None => r == Response(400, UpdatedBody(false, None)) && db.tasks == old(db.tasks)
        case Some(t) => db.tasks == old(db.tasks)[i := t] && r == Response(201, UpdatedBody(true, None))
  {
    if fault {
      return Response(400, UpdatedBody(false, None));
    }
    var found := FindTask(db.tasks, id, None);
    if found.None? {
      return NotFound;
    }
    var doc := AsDocument(db.tasks[found.value]);
    doc := doc.(title := body.newTitle);
    var saved := db.SaveAt(found.value, doc);
    if saved.None? {
      return Response(400, UpdatedBody(false, None));
    }
    r := Response(201, UpdatedBody(true, None));
  }

  /** DELETE /todo/:id: looks up by id alone, then deletes by id. */
  method DeleteTodo(db: TodoCollection, id: ObjectId, fault: bool) returns (r: Response)
    requires db.Valid()
    modifies db
    ensures db.Valid()
    ensures fault ==> r == Response(400, DeletedBody(false)) && db.tasks == old(db.tasks)
    ensures !fault ==>
      match FindTask(old(db.tasks), id, None)
      case None => r == NotFound && db.tasks == old(db.tasks)
      case Some(i) => db.tasks == RemoveAt(old(db.tasks), i) && r == Response(201, DeletedBody(true))
  {
    if fault {
      return Response(400, DeletedBody(false));
    }
    var found := FindTask(db.tasks, id, None);
    if found.None? {
      return NotFound;
    }
    db.DeleteAt(found.value);
    r := Response(201, DeletedBody(true));
  }
}
