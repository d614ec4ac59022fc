/**
 * The unscoped Todo controllers (src/controllers/todo2.controllers.js): the same
 * lookups as the unscoped routes, with 200 statuses and error answers on every path.
 */
module LegacyTodoControllers {
  import opened Wrappers
  import opened ObjectIds
  import opened TodoModel
  import opened Http
  import LegacyTodoRoutes

  /** `getTodos`: every Todo of every user. */
  function GetTodos(tasks: seq<Task>, fault: bool): (r: Response)
    ensures fault ==> r == Response(500, ErrorBody("Failed to fetch todos"))
    ensures !fault ==> r == LegacyTodoRoutes.ListAll(tasks, false).value
  {
    if fault then Response(500, ErrorBody("Failed to fetch todos"))
    else Response(200, TaskListBody(Views(tasks)))
  }

  /** `postTodos`: answers with the whole created record, or 400. */
  method PostTodos(db: TodoCollection, body: TaskRequest, fault: bool) returns (r: Response)
    requires db.Valid()
    modifies db
    ensures db.Valid()
    ensures fault ==> r == Response(400, ErrorBody("Failed to create todo")) && db.tasks == old(db.tasks)
    ensures !fault ==>
      match Validate(old(db.nextId), LegacyTodoRoutes.UnownedDocument(body))
      case None => r == Response(400, ErrorBody("Failed to create todo")) && db.tasks == old(db.tasks)
      case Some(t) => db.tasks == old(db.tasks) + [t] && r == Response(201, RecordCreatedBody("Todo created", t))
  {
    if fault {
      return Response(400, ErrorBody("Failed to create todo"));
    }
    var created := db.Insert(LegacyTodoRoutes.UnownedDocument(body));
    if created.None? {
      return Response(400, ErrorBody("Failed to create todo"));
    }
    r := Response(201, RecordCreatedBody("Todo created", created.value));
  }

  /** `patchTodos`: looks up by id alone and sets only the title. */
  method PatchTodos(db: TodoCollection, id: ObjectId, body: TaskRequest, fault: bool) returns (r: Response)
    requires db.Valid()
    modifies db
    ensures db.Valid()
    ensures fault ==> r == Response(400, UpdatedBody(false, None)) && db.tasks == old(db.tasks)
    ensures !fault ==>
      match FindTask(old(db.tasks), id, None)
      case None => r == NotFound && db.tasks == old(db.tasks)
      case Some(i) =>
        match LegacyTodoRoutes.RetitleTask(old(db.tasks)[i], body.newTitle)
        case None => r == Response(400, UpdatedBody(false, None)) && db.tasks == old(db.tasks)
        case Some(t) => db.tasks == old(db.tasks)[i := t] && r == Response(200, UpdatedBody(true, None))
  {
    if fault {
      return Response(400, UpdatedBody(false, None));
    }
    var found := FindTask(db.tasks, id, None);
    if found.None? {
      return NotFound;
    }
    var doc := AsDocument(db.tasks[found.value]);
    doc := doc.(title := body.newTitle);
    var saved := db.SaveAt(found.value, doc);
    if saved.None? {
      return Response(400, UpdatedBody(false, None));
    }
    r := Response(200, UpdatedBody(true, None));
  }

  /** `deleteTodos`: looks up by id alone, then deletes by id. */
  method DeleteTodos(db: TodoCollection, id: ObjectId, fault: bool) returns (r: Response)
    requires db.Valid()
    modifies db
    ensures db.Valid()
    ensures fault ==> r == Response(400, DeletedBody(false)) && db.tasks == old(db.tasks)
    ensures !fault ==>
      match FindTask(old(db.tasks), id, None)
      case None => r == NotFound && db.tasks == old(db.tasks)
      case Some(i) => db.tasks == RemoveAt(old(db.tasks), i) && r == Response(200, DeletedBody(true))
  {
    if fault {
      return Response(400, DeletedBody(false));
    }
    var found := FindTask(db.tasks, id, None);
    if found.None? {
      return NotFound;
    }
    db.DeleteAt(found.value);
    r := Response(200, DeletedBody(true));
  }
}
