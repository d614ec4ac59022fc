/**
 * The Todo schema (backend/src/models/todo.models.js) and the Todo collection
 * that the route handlers read and update in place.
 */
module TodoModel {
  import opened Wrappers
  import opened ObjectIds

  /** A stored Todo document. */
  datatype Task = Task(
    id: ObjectId,
    name: string,
    title: string,
    content: string,
    isCompleted: bool,
    owner: Option<ObjectId>)   // a User reference; the schema does not require it

  /** A document in flight: the values a handler has put on it before `create`/`save`
      validates it; `None` is a JavaScript `undefined`. */
  datatype Document = Document(
    name: Option<string>,
    title: Option<string>,
    content: Option<string>,
    isCompleted: Option<bool>,
    owner: Option<ObjectId>)

  /** What the handlers send back for one Todo: `{id, name, title, content, isCompleted}`. */
  datatype TaskView = TaskView(id: ObjectId, name: string, title: string, content: string, isCompleted: bool)

  /** Mongoose's `required` validator on a String path: present and not the empty string. */
  predicate RequiredString(v: Option<string>) {
    v.Some? && v.value != ""
  }

  /** A stored Todo satisfies the schema: name, title and content are required strings. */
  predicate Conforms(t: Task) {
    t.name != "" && t.title != "" && t.content != ""
  }

  /** Schema validation of a document about to be written under `id`, with the
      `isCompleted` default applied; `None` when a validator rejects it. */
  function Validate(id: ObjectId, d: Document): (r: Option<Task>)
    ensures r.Some? <==> RequiredString(d.name) && RequiredString(d.title) && RequiredString(d.content)
    ensures r.Some? ==> Conforms(r.value) && r.value.id == id && r.value.owner == d.owner
    ensures r.Some? ==>
      r.value.name == d.name.value && r.value.title == d.title.value && r.value.content == d.content.value
    ensures r.Some? ==> r.value.isCompleted == (d.isCompleted == Some(true))
  {
    if RequiredString(d.name) && RequiredString(d.title) && RequiredString(d.content) then
      Some(Task(id, d.name.value, d.title.value, d.content.value, d.isCompleted.GetOr(false), d.owner))
    else
      None
  }

  /** The loaded document of a stored Todo. */
  function AsDocument(t: Task): Document {
    Document(Some(t.name), Some(t.title), Some(t.content), Some(t.isCompleted), t.owner)
  }

  /** Saving a conforming Todo without changing it writes it back as it was. */
  lemma ValidateAsDocument(t: Task)
    requires Conforms(t)
    ensures Validate(t.id, AsDocument(t)) == Some(t)
  {
  }

  /** The projection every list/create/update response applies. */
  function Project(t: Task): (v: TaskView)
    ensures v.id == t.id && v.name == t.name && v.title == t.title
    ensures v.content == t.content && v.isCompleted == t.isCompleted
  {
    TaskView(t.id, t.name, t.title, t.content, t.isCompleted)
  }

  /** `tasks.map(project)`. */
  function Views(tasks: seq<Task>): (vs: seq<TaskView>)
    ensures |vs| == |tasks| && forall i :: 0 <= i < |tasks| ==> vs[i] == Project(tasks[i])
  {
    seq(|tasks|, i requires 0 <= i < |tasks| => Project(tasks[i]))
  }

  /** No two stored Todos share an ObjectId. */
  ghost predicate IdsDistinct(tasks: seq<Task>) {
    forall i, j :: 0 <= i < j < |tasks| ==> tasks[i].id != tasks[j].id
  }

  /** The Todos whose `owner` field equals `owner`, in storage order
      (`Todo.find({ owner })`). */
  function WithOwner(tasks: seq<Task>, owner: Option<ObjectId>): (r: seq<Task>)
    ensures |r| <= |tasks|
    ensures forall t :: t in r <==> t in tasks && t.owner == owner
  {
    if tasks == [] then []
    else (if tasks[0].owner == owner then [tasks[0]] else []) + WithOwner(tasks[1..], owner)
  }

  /** Filtering distributes over concatenation, so it keeps storage order. */
  lemma {:induction false} WithOwnerAppend(a: seq<Task>, b: seq<Task>, owner: Option<ObjectId>)
    ensures WithOwner(a + b, owner) == WithOwner(a, owner) + WithOwner(b, owner)
    decreases |a|
  {
    if a != [] {
      assert (a + b)[1..] == a[1..] + b;
      WithOwnerAppend(a[1..], b, owner);
    } else {
      assert a + b == b;
    }
  }

  /** Does `t` match the filter `{_id: id}` (scope `None`) or `{_id: id, owner}`? */
  predicate Matches(t: Task, id: ObjectId, scope: Option<ObjectId>) {
    t.id == id && (scope.None? || t.owner == scope)
  }

  /** Index of the first Todo matching the filter, from position `from` on
      (`findById` / `findOne` in natural order). */
  function FindTask(tasks: seq<Task>, id: ObjectId, scope: Option<ObjectId>, from: nat := 0): (r: Option<nat>)
    requires from <= |tasks|
    ensures r.Some? ==> from <= r.value < |tasks| && Matches(tasks[r.value], id, scope)
    ensures r.Some? ==> forall j :: from <= j < r.value ==> !Matches(tasks[j], id, scope)
    ensures r.None? ==> forall j :: from <= j < |tasks| ==> !Matches(tasks[j], id, scope)
    decreases |tasks| - from
  {
    if from == |tasks| then None
    else if Matches(tasks[from], id, scope) then Some(from)
    else FindTask(tasks, id, scope, from + 1)
  }

  /** `tasks` without the element at `i`. */
  function RemoveAt(tasks: seq<Task>, i: nat): (r: seq<Task>)
    requires i < |tasks|
    ensures |r| == |tasks| - 1
    ensures forall j :: 0 <= j < i ==> r[j] == tasks[j]
    ensures forall j :: i <= j < |r| ==> r[j] == tasks[j + 1]
  {
    tasks[..i] + tasks[i + 1..]
  }

  /** Removing a Todo that `owner` does not own leaves `owner`'s Todos as they were. */
  lemma RemoveAtOthers(tasks: seq<Task>, i: nat, owner: Option<ObjectId>)
    requires i < |tasks| && tasks[i].owner != owner
    ensures WithOwner(RemoveAt(tasks, i), owner) == WithOwner(tasks, owner)
  {
    assert tasks == tasks[..i] + [tasks[i]] + tasks[i + 1..];
    WithOwnerAppend(tasks[..i] + [tasks[i]], tasks[i + 1..], owner);
    WithOwnerAppend(tasks[..i], [tasks[i]], owner);
    WithOwnerAppend(tasks[..i], tasks[i + 1..], owner);
    assert WithOwner([tasks[i]], owner) == [];
  }

  /** Rewriting a Todo in place without changing its owner leaves every other
      owner's Todos as they were. */
  lemma ReplaceAtOthers(tasks: seq<Task>, i: nat, t: Task, owner: Option<ObjectId>)
    requires i < |tasks| && tasks[i].owner != owner && t.owner == tasks[i].owner
    ensures WithOwner(tasks[i := t], owner) == WithOwner(tasks, owner)
  {
    assert tasks == tasks[..i] + [tasks[i]] + tasks[i + 1..];
    assert tasks[i := t] == tasks[..i] + [t] + tasks[i + 1..];
    WithOwnerAppend(tasks[..i] + [tasks[i]], tasks[i + 1..], owner);
    WithOwnerAppend(tasks[..i], [tasks[i]], owner);
    WithOwnerAppend(tasks[..i] + [t], tasks[i + 1..], owner);
    WithOwnerAppend(tasks[..i], [t], owner);
    assert WithOwner([tasks[i]], owner) == [] == WithOwner([t], owner);
  }

  /** Appending a Todo of another owner leaves `owner`'s Todos as they were. */
  lemma AppendOthers(tasks: seq<Task>, t: Task, owner: Option<ObjectId>)
    requires t.owner != owner
    ensures WithOwner(tasks + [t], owner) == WithOwner(tasks, owner)
  {
    WithOwnerAppend(tasks, [t], owner);
    assert WithOwner([t], owner) == [];
  }

  /** With distinct ids, removing the Todo at `i` removes exactly the record
      with its id and keeps every other record. */
  lemma RemoveAtExactlyOne(tasks: seq<Task>, i: nat)
    requires IdsDistinct(tasks) && i < |tasks|
    ensures forall t :: t in RemoveAt(tasks, i) <==> t in tasks && t.id != tasks[i].id
  {
    var r := RemoveAt(tasks, i);
    forall t ensures t in r <==> t in tasks && t.id != tasks[i].id {
      if t in r {
        var j :| 0 <= j < |r| && r[j] == t;
        if j < i { assert tasks[j] == t; } else { assert tasks[j + 1] == t; }
      }
      if t in tasks && t.id != tasks[i].id {
        var k :| 0 <= k < |tasks| && tasks[k] == t;
        if k < i { assert r[k] == t; } else { assert k != i && r[k - 1] == t; }
      }
    }
  }

  /** The Todo collection, updated in place by the handlers. `nextId` stands for the
      ObjectId generator: every id issued so far is below it. */
  class TodoCollection {
    var tasks: seq<Task>
    var nextId: ObjectId

    /** Ids are distinct and were all issued, and every stored Todo passed validation. */
    ghost predicate Valid()
      reads this
    {
      && IdsDistinct(tasks)
      && (forall i :: 0 <= i < |tasks| ==> tasks[i].id < nextId && Conforms(tasks[i]))
    }

    constructor ()
      ensures Valid() && tasks == []
    {
      tasks := [];
      nextId := 0;
    }

    /** `Todo.create(doc)`: validates, stores under a fresh id and returns the new record;
        `None` (nothing written) when validation rejects the document. */
    method Insert(d: Document) returns (created: Option<Task>)
      requires Valid()
      modifies this
      ensures Valid()
      ensures created == Validate(old(nextId), d)
      ensures created.Some? ==> tasks == old(tasks) + [created.value]
      ensures created.None? ==> tasks == old(tasks)
      ensures nextId == if created.Some? then old(nextId) + 1 else old(nextId)
    {
      created := Validate(nextId, d);
      if created.Some? {
        tasks := tasks + [created.value];
        nextId := nextId + 1;
      }
    }

    /** `doc.save()` of the loaded record at `i`: validates, and on success writes the
        record back in place; `None` (nothing written) when validation rejects it. */
    method SaveAt(i: nat, d: Document) returns (saved: Option<Task>)
      requires Valid() && i < |tasks|
      modifies this
      ensures Valid()
      ensures saved == Validate(old(tasks)[i].id, d)
      ensures saved.Some? ==> tasks == old(tasks)[i := saved.value]
      ensures saved.None? ==> tasks == old(tasks)
      ensures nextId == old(nextId)
    {
      saved := Validate(tasks[i].id, d);
      if saved.Some? {
        tasks := tasks[i := saved.value];
      }
    }

    /** `findByIdAndDelete` / `findOneAndDelete` of the record at `i`. */
    method DeleteAt(i: nat)
      requires Valid() && i < |tasks|
      modifies this
      ensures Valid()
      ensures tasks == RemoveAt(old(tasks), i) && nextId == old(nextId)
    {
      tasks := RemoveAt(tasks, i);
    }
  }
}
