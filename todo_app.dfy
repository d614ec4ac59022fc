/**
 * The request-building and counting expressions of the client
 * (frontend/src/components/TodoApp.jsx); rendering and React state are not modelled.
 * An empty description travels as the sentinel "No description".
 */
module TodoApp {
  import opened Wrappers
  import opened ObjectIds
  import opened JsString
  import opened TodoModel
  import opened Http
  import TodoRoutes

  const NoDescription := "No description"

  /** `s || fallback` on strings: the empty string is falsy. */
  function OrElse(s: string, fallback: string): (r: string)
    ensures r == (if s == "" then fallback else s)
  {
    if s != "" then s else fallback
  }

  /** `addTodo`: nothing is sent when the title is blank after `trim()`; otherwise the
      title as typed, the category "Personal" and the sentinel for an empty description. */
  function NewTaskRequest(title: string, content: string): (r: Option<TaskRequest>)
    ensures r.None? <==> forall i :: 0 <= i < |title| ==> IsWhitespace(title[i])
    ensures r.Some? ==> r.value.name == Some("Personal") && r.value.title == Some(title)
    ensures r.Some? ==> r.value.content == Some(if content == "" then NoDescription else content)
    ensures r.Some? ==> r.value.isCompleted.None? && r.value.owner.None? && r.value.newTitle.None?
  {
    TrimEmpty(title);
    if Trim(title) == "" then None
    else Some(TaskRequest(Some("Personal"), Some(title), Some(OrElse(content, NoDescription)), None, None, None))
  }

  /** Every request the add form sends passes the server's schema validation. */
  lemma NewTaskAccepted(title: string, content: string, id: ObjectId, caller: ObjectId)
    requires NewTaskRequest(title, content).Some?
    ensures Validate(id, TodoRoutes.CreationDocument(NewTaskRequest(title, content).value, caller)).Some?
  {
  }

  /** The description the edit form starts with: the sentinel shows as empty. */
  function EditFormContent(stored: string): (shown: string)
    ensures stored == NoDescription ==> shown == ""
    ensures stored != NoDescription ==> shown == stored
  {
    if stored == NoDescription then "" else stored
  }

  /** `handleSubmit`: sends only the title and the description, the sentinel for an
      empty one. */
  function EditSubmission(title: string, formContent: string): (r: TaskRequest)
    ensures r.title == Some(title) && r.content.Some? && r.content.value != ""
    ensures r.name.None? && r.isCompleted.None? && r.owner.None? && r.newTitle.None?
  {
    TaskRequest(None, Some(title), Some(OrElse(formContent, NoDescription)), None, None, None)
  }

  /** Opening the edit form and saving it unchanged sends back the stored description
      exactly when that description is non-empty (the sentinel included). */
  lemma EditRoundTrip(title: string, stored: string)
    ensures EditSubmission(title, EditFormContent(stored)).content == Some(stored) <==> stored != ""
  {
  }

  /** Under the server's partial update an edit keeps the category and the completion
      flag, and, saved unchanged, leaves a stored Todo exactly as it was. */
  lemma EditKeepsOtherFields(t: Task, title: string, formContent: string)
    requires Conforms(t) && title != ""
    ensures var r := TodoRoutes.PatchTask(t, EditSubmission(title, formContent));
      && r.Some?
      && r.value == t.(title := title, content := OrElse(formContent, NoDescription))
    ensures TodoRoutes.PatchTask(t, EditSubmission(t.title, EditFormContent(t.content))) == Some(t)
  {
    EditRoundTrip(t.title, t.content);
  }

  /** `toggleComplete`: sends only the negated flag. */
  function ToggleRequest(v: TaskView): (r: TaskRequest)
    ensures r.isCompleted == Some(!v.isCompleted)
    ensures r.name.None? && r.title.None? && r.content.None? && r.owner.None? && r.newTitle.None?
  {
    TaskRequest(None, None, None, Some(!v.isCompleted), None, None)
  }

  /** Toggling a listed Todo flips its flag on the server and changes nothing else. */
  lemma ToggleFlips(t: Task)
    requires Conforms(t)
    ensures TodoRoutes.PatchTask(t, ToggleRequest(Project(t))) == Some(t.(isCompleted := !t.isCompleted))
  {
  }

  /** `todos.filter((todo) => todo.isCompleted).length`. */
  function CompletedCount(todos: seq<TaskView>): (n: nat)
    ensures n <= |todos|
  {
    if todos == [] then 0
    else (if todos[0].isCompleted then 1 else 0) + CompletedCount(todos[1..])
  }

  /** `todos.length - completedCount`. */
  function ActiveCount(todos: seq<TaskView>): (n: int)
    ensures 0 <= n <= |todos|
  {
    |todos| - CompletedCount(todos)
  }

  /** The number of Todos not completed. */
  function PendingCount(todos: seq<TaskView>): nat {
    if todos == [] then 0
    else (if todos[0].isCompleted then 0 else 1) + PendingCount(todos[1..])
  }

  /** The active counter counts exactly the Todos not completed, so the two counters
      always add up to the total. */
  lemma {:induction false} CountersPartition(todos: seq<TaskView>)
    ensures ActiveCount(todos) == PendingCount(todos)
    ensures ActiveCount(todos) + CompletedCount(todos) == |todos|
    ensures 0 <= ActiveCount(todos)
  {
    if todos != [] {
      CountersPartition(todos[1..]);
    }
  }

  /** `todo.content && todo.content !== "No description"`: whether the card shows a
      description. */
  predicate ShowsContent(content: string): (shown: bool)
    ensures shown <==> EditFormContent(content) != ""
  {
    content != "" && content != NoDescription
  }

  /** A description typed in the edit form is displayed afterwards exactly when it was
      non-empty and not the sentinel itself. */
  lemma ShownAfterEdit(title: string, formContent: string)
    ensures ShowsContent(EditSubmission(title, formContent).content.value)
        <==> formContent != "" && formContent != NoDescription
  {
  }
}
