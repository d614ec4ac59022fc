/**
 * The User schema (src/models/user.models.js) and the User collection.
 */
module UserModel {
  import opened Wrappers
  import opened ObjectIds

  /** A stored User document; `password` holds the bcrypt hash. */
  datatype User = User(
    id: ObjectId,
    username: string,
    email: string,
    password: string,
    todoItems: seq<ObjectId>)   // references to Todo documents

  /** The public part of a User sent back by register and login: `{id, username, email}`. */
  datatype UserView = UserView(id: ObjectId, username: string, email: string)

  /** A stored User satisfies the schema: username, email and password are required strings.
      The schema puts no unique index on email. */
  predicate Conforms(u: User) {
    u.username != "" && u.email != "" && u.password != ""
  }

  /** Schema validation of `User.create({username, email, password})` under `id`;
      `todoItems` starts as the empty array. */
  function Validate(id: ObjectId, username: string, email: string, password: string): (r: Option<User>)
    ensures r.Some? <==> username != "" && email != "" && password != ""
    ensures r.Some? ==> Conforms(r.value) && r.value == User(id, username, email, password, [])
  {
    if username != "" && email != "" && password != "" then Some(User(id, username, email, password, []))
    else None
  }

  function ToView(u: User): (v: UserView)
    ensures v.id == u.id && v.username == u.username && v.email == u.email
  {
    UserView(u.id, u.username, u.email)
  }

  /** `User.findOne({ email })`: the first User with that email in natural order. */
  function FindByEmail(users: seq<User>, email: string, from: nat := 0): (r: Option<nat>)
    requires from <= |users|
    ensures r.Some? ==> from <= r.value < |users| && users[r.value].email == email
    ensures r.Some? ==> forall j :: from <= j < r.value ==> users[j].email != email
    ensures r.None? ==> forall j :: from <= j < |users| ==> users[j].email != email
    decreases |users| - from
  {
    if from == |users| then None
    else if users[from].email == email then Some(from)
    else FindByEmail(users, email, from + 1)
  }

  /** `User.findById(id)`. */
  function FindById(users: seq<User>, id: ObjectId, from: nat := 0): (r: Option<nat>)
    requires from <= |users|
    ensures r.Some? ==> from <= r.value < |users| && users[r.value].id == id
    ensures r.Some? ==> forall j :: from <= j < r.value ==> users[j].id != id
    ensures r.None? ==> forall j :: from <= j < |users| ==> users[j].id != id
    decreases |users| - from
  {
    if from == |users| then None
    else if users[from].id == id then Some(from)
    else FindById(users, id, from + 1)
  }

  ghost predicate IdsDistinct(users: seq<User>) {
    forall i, j :: 0 <= i < j < |users| ==> users[i].id != users[j].id
  }

  /** No two Users share an email; only the register-time check maintains this. */
  ghost predicate EmailsDistinct(users: seq<User>) {
    forall i, j :: 0 <= i < j < |users| ==> users[i].email != users[j].email
  }

  /** With distinct ids, `findById` finds the one User with that id. */
  lemma FindByIdUnique(users: seq<User>, k: nat)
    requires IdsDistinct(users) && k < |users|
    ensures FindById(users, users[k].id) == Some(k)
  {
  }

  /** With distinct emails, `findOne({email})` finds the one User with that email. */
  lemma FindByEmailUnique(users: seq<User>, k: nat)
    requires EmailsDistinct(users) && k < |users|
    ensures FindByEmail(users, users[k].email) == Some(k)
  {
  }

  /** The User collection. */
  class UserCollection {
    var users: seq<User>
    var nextId: ObjectId

    ghost predicate Valid()
      reads this
    {
      && IdsDistinct(users)
      && (forall i :: 0 <= i < |users| ==> users[i].id < nextId && Conforms(users[i]))
    }

    constructor ()
      ensures Valid() && users == []
    {
      users := [];
      nextId := 0;
    }

    /** `User.create({username, email, password})`. */
    method Insert(username: string, email: string, password: string) returns (created: Option<User>)
      requires Valid()
      modifies this
      ensures Valid()
      ensures created == Validate(old(nextId), username, email, password)
      ensures created.Some? ==> users == old(users) + [created.value]
      ensures created.None? ==> users == old(users)
      ensures nextId == if created.Some? then old(nextId) + 1 else old(nextId)
    {
      created := Validate(nextId, username, email, password);
      if created.Some? {
        users := users + [created.value];
        nextId := nextId + 1;
      }
    }
  }
}
