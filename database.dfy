/** The document store: the `users` and `tasks` collections, with the model
    operations the routes call (`User.create`, `Task.create`, `task.save()`,
    `Task.findByIdAndDelete`, `findOne`). Ids and timestamps come from two
    counters; an id is never reused. */
module Database {
  import opened Common
  import opened Primitives
  import opened UserModel
  import opened TaskModel

  /** What the store throws back to a route. */
  datatype StoreError =
    | ValidationFailed(messages: seq<string>)   // Mongoose `ValidationError`
    | DuplicateKey(fields: seq<string>)         // MongoDB error code 11000

  // ---------------------------------------------------------------------------
  // Collection scans
  // ---------------------------------------------------------------------------

  /** Every document sits under its own id. */
  predicate KeyedBy<V>(m: map<Id, V>, key: V -> Id)
  {
    forall id :: id in m ==> key(m[id]) == id
  }

  /** A collection scan in natural (insertion, that is id) order over the ids
      below `upto`, keeping the documents `keep` accepts: `find(filter)`. */
  function Scan<V(!new)>(m: map<Id, V>, key: V -> Id, upto: nat, keep: V -> bool): (r: seq<V>)
    requires KeyedBy(m, key)
    ensures forall v :: v in r <==> key(v) < upto && key(v) in m && m[key(v)] == v && keep(v)
    ensures forall i, j :: 0 <= i < j < |r| ==> key(r[i]) < key(r[j])
  {
    if upto == 0 then []
    else
      var id := upto - 1;
      var rest := Scan(m, key, id, keep);
      if id in m && keep(m[id]) then rest + [m[id]] else rest
  }

  function UserKey(u: User): Id { u.id }

  function TaskKey(t: Task): Id { t.id }

  /** `User.findOne({ email })` on a store whose ids are all below `nextId`. */
  function FindUserByEmail(users: map<Id, User>, nextId: nat, email: string): (r: Option<User>)
    requires KeyedBy(users, UserKey) && IdsBelow(users, nextId)
    ensures r.Some? ==> r.value.id in users && users[r.value.id] == r.value && r.value.email == email
    ensures r.None? <==> forall id :: id in users ==> users[id].email != email
  {
    var found := Scan(users, UserKey, nextId, (u: User) => u.email == email);
    if found == [] then
      assert forall id :: id in users ==> users[id].email != email by {
        forall id | id in users ensures users[id].email != email {
          assert UserKey(users[id]) == id && users[id] !in found;
        }
      }
      None
    else
      assert found[0] in found;
      Some(found[0])
  }

  /** Some stored user has this address. */
  predicate EmailInUse(users: map<Id, User>, email: string)
  {
    exists id :: id in users && users[id].email == email
  }

  predicate IdsBelow<V>(m: map<Id, V>, nextId: nat)
  {
    forall id :: id in m ==> id < nextId
  }

  // ---------------------------------------------------------------------------
  // Invariants of the stored collections
  // ---------------------------------------------------------------------------

  /** Every user is keyed by its id, older than the counters and admitted by the schema. */
  predicate UsersStored(users: map<Id, User>, nextId: nat, clock: nat)
  {
    forall id :: id in users ==>
      && users[id].id == id && id < nextId
      && users[id].createdAt <= users[id].updatedAt < clock
      && SchemaValid(users[id])
  }

  /** Every task is keyed by its id, older than the counters and admitted by the schema. */
  predicate TasksStored(tasks: map<Id, Task>, nextId: nat, clock: nat)
  {
    forall id :: id in tasks ==>
      && tasks[id].id == id && id < nextId
      && tasks[id].updatedAt < clock
      && WellFormed(tasks[id])
  }

  /** The `unique` index on `email`. */
  predicate UniqueEmails(users: map<Id, User>)
  {
    forall a, b :: a in users && b in users && users[a].email == users[b].email ==> a == b
  }

  /** A task with a larger id was created later: ids and creation times come
      from increasing counters. */
  predicate CreationOrdered(tasks: map<Id, Task>)
  {
    forall a, b :: a in tasks && b in tasks && a < b ==> tasks[a].createdAt < tasks[b].createdAt
  }

  /** What the routes keep about users: a student has a teacher, a teacher has
      none, and a student's teacher is a stored user with the teacher role. */
  predicate TeacherLinks(users: map<Id, User>)
  {
    forall id :: id in users ==>
      && (users[id].teacherId.Some? <==> users[id].role == Student)
      && (users[id].teacherId.Some? ==>
            users[id].teacherId.value in users && users[users[id].teacherId.value].role == Teacher)
  }

  /** What the routes keep about tasks: every owner is a stored user. */
  predicate OwnersExist(users: map<Id, User>, tasks: map<Id, Task>)
  {
    forall id :: id in tasks ==> tasks[id].userId in users
  }

  // ---------------------------------------------------------------------------
  // How the store operations keep the invariants
  // ---------------------------------------------------------------------------

  lemma UsersStoredInsert(users: map<Id, User>, nextId: nat, clock: nat, u: User)
    requires UsersStored(users, nextId, clock)
    requires u.id == nextId && u.createdAt <= u.updatedAt <= clock && SchemaValid(u)
    ensures UsersStored(users[nextId := u], nextId + 1, clock + 1)
  {
  }

  lemma UsersStoredLater(users: map<Id, User>, nextId: nat, clock: nat, nextId': nat, clock': nat)
    requires UsersStored(users, nextId, clock) && nextId <= nextId' && clock <= clock'
    ensures UsersStored(users, nextId', clock')
  {
  }

  lemma TasksStoredPut(tasks: map<Id, Task>, nextId: nat, clock: nat, t: Task)
    requires TasksStored(tasks, nextId, clock)
    requires t.id < nextId && t.updatedAt <= clock && WellFormed(t)
    ensures TasksStored(tasks[t.id := t], nextId, clock + 1)
  {
  }

  lemma TasksStoredLater(tasks: map<Id, Task>, nextId: nat, clock: nat, nextId': nat, clock': nat)
    requires TasksStored(tasks, nextId, clock) && nextId <= nextId' && clock <= clock'
    ensures TasksStored(tasks, nextId', clock')
  {
  }

  lemma TasksStoredRemove(tasks: map<Id, Task>, nextId: nat, clock: nat, id: Id)
    requires TasksStored(tasks, nextId, clock)
    ensures TasksStored(tasks - {id}, nextId, clock)
  {
  }

  lemma UniqueEmailsInsert(users: map<Id, User>, u: User)
    requires UniqueEmails(users) && u.id !in users
    requires forall id :: id in users ==> users[id].email != u.email
    ensures UniqueEmails(users[u.id := u])
  {
  }

  lemma CreationOrderedInsert(tasks: map<Id, Task>, t: Task)
    requires CreationOrdered(tasks)
    requires forall id :: id in tasks ==> id < t.id && tasks[id].createdAt < t.createdAt
    ensures CreationOrdered(tasks[t.id := t])
  {
  }

  lemma CreationOrderedReplace(tasks: map<Id, Task>, t: Task)
    requires CreationOrdered(tasks) && t.id in tasks && tasks[t.id].createdAt == t.createdAt
    ensures CreationOrdered(tasks[t.id := t])
  {
  }

  lemma CreationOrderedRemove(tasks: map<Id, Task>, id: Id)
    requires CreationOrdered(tasks)
    ensures CreationOrdered(tasks - {id})
  {
  }

  lemma TeacherLinksInsert(users: map<Id, User>, u: User)
    requires TeacherLinks(users) && u.id !in users
    requires u.teacherId.Some? <==> u.role == Student
    requires u.teacherId.Some? ==> u.teacherId.value in users && users[u.teacherId.value].role == Teacher
    ensures TeacherLinks(users[u.id := u])
  {
  }

  lemma OwnersExistGrow(users: map<Id, User>, users': map<Id, User>, tasks: map<Id, Task>)
    requires OwnersExist(users, tasks) && users.Keys <= users'.Keys
    ensures OwnersExist(users', tasks)
  {
  }

  lemma OwnersExistPut(users: map<Id, User>, tasks: map<Id, Task>, t: Task)
    requires OwnersExist(users, tasks) && t.userId in users
    ensures OwnersExist(users, tasks[t.id := t])
  {
  }

  lemma OwnersExistRemove(users: map<Id, User>, tasks: map<Id, Task>, id: Id)
    requires OwnersExist(users, tasks)
    ensures OwnersExist(users, tasks - {id})
  {
  }

  class Store {
    var users: map<Id, User>
    var tasks: map<Id, Task>
    var nextId: nat
    var clock: nat

    /** What the database itself guarantees. */
    ghost predicate Valid()
      reads this
    {
      && UsersStored(users, nextId, clock)
      && TasksStored(tasks, nextId, clock)
      && UniqueEmails(users)
      && CreationOrdered(tasks)
    }

    /** What the routes guarantee on top of it. */
    ghost predicate Linked()
      reads this
    {
      TeacherLinks(users) && OwnersExist(users, tasks)
    }

    constructor ()
      ensures Valid() && Linked()
      ensures users == map[] && tasks == map[]
    {
      users, tasks := map[], map[];
      nextId, clock := 0, 0;
    }

    /** `User.create({ email, passwordHash: password, role, teacherId })`: the
        setters normalise the email, the validators run on the plain password,
        the `pre('save')` hook hashes it, and the unique index refuses a second
        user with the same email. */
    method CreateUser(email: string, password: string, role: Role, teacherId: Option<Id>, salt: string)
      returns (r: Result<User, StoreError>)
      requires Valid() && IsSalt(salt)
      modifies this
      ensures Valid()
      ensures tasks == old(tasks)
      ensures r.Err? ==> users == old(users)
      ensures UserModel.SchemaErrors(NormalizeEmail(email), password, role, teacherId) != [] ==>
        r == Err(ValidationFailed(UserModel.SchemaErrors(NormalizeEmail(email), password, role, teacherId)))
      ensures r.Ok? <==>
        && UserModel.SchemaErrors(NormalizeEmail(email), password, role, teacherId) == []
        && !EmailInUse(old(users), NormalizeEmail(email))
      ensures r.Err? && r.error.DuplicateKey? <==>
        && UserModel.SchemaErrors(NormalizeEmail(email), password, role, teacherId) == []
        && EmailInUse(old(users), NormalizeEmail(email))
      ensures r.Ok? ==>
        && r.value.id == old(nextId) && r.value.id !in old(users)
        && users == old(users)[r.value.id := r.value]
        && r.value.email == NormalizeEmail(email)
        && r.value.role == role && r.value.teacherId == teacherId
        && r.value.createdAt == r.value.updatedAt == old(clock)
        && (forall candidate :: ComparePassword(r.value, candidate) <==> BcryptKey(candidate) == BcryptKey(password))
    {
      var stored := NormalizeEmail(email);
      var errs := UserModel.SchemaErrors(stored, password, role, teacherId);
      if errs != [] {
        return Err(ValidationFailed(errs));
      }
      var doc := new UserDocument(password);
      doc.Save(salt);
      var existing := FindUserByEmail(users, nextId, stored);
      if existing.Some? {
        assert users[existing.value.id].email == stored;
        return Err(DuplicateKey(["email"]));
      }
      var u := User(nextId, stored, doc.passwordHash, role, teacherId, clock, clock);
      InsertUser(u);
      r := Ok(u);
    }

    /** The insert itself, once the document is admitted and its email is free. */
    method InsertUser(u: User)
      requires Valid()
      requires u.id == nextId && u.createdAt == u.updatedAt == clock && SchemaValid(u)
      requires forall id :: id in users ==> users[id].email != u.email
      modifies this
      ensures Valid()
      ensures users == old(users)[u.id := u] && tasks == old(tasks)
      ensures nextId == old(nextId) + 1 && clock == old(clock) + 1
    {
      UsersStoredInsert(users, nextId, clock, u);
      UniqueEmailsInsert(users, u);
      TasksStoredLater(tasks, nextId, clock, nextId + 1, clock + 1);
      users := users[nextId := u];
      nextId, clock := nextId + 1, clock + 1;
    }

    /** `Task.create(fields)`: the setters and validators run, then the
        document is inserted with a fresh id and both timestamps set to now. */
    method CreateTask(f: TaskFields) returns (r: Result<Task, StoreError>)
      requires Valid()
      modifies this
      ensures Valid()
      ensures users == old(users)
      ensures Validate(f).Err? ==> r == Err(ValidationFailed(Validate(f).error)) && tasks == old(tasks)
      ensures Validate(f).Ok? ==>
        && r.Ok?
        && r.value.id == old(nextId) && r.value.id !in old(tasks)
        && tasks == old(tasks)[r.value.id := r.value]
        && FieldsOf(r.value) == Validate(f).value
        && r.value.createdAt == r.value.updatedAt == old(clock)
    {
      var v := Validate(f);
      if v.Err? {
        return Err(ValidationFailed(v.error));
      }
      var t := Task(nextId, v.value.userId, v.value.title, v.value.description, v.value.dueDate,
                    v.value.progress, clock, clock);
      TasksStoredLater(tasks, nextId, clock, nextId + 1, clock);
      TasksStoredPut(tasks, nextId + 1, clock, t);
      CreationOrderedInsert(tasks, t);
      UsersStoredLater(users, nextId, clock, nextId + 1, clock + 1);
      tasks := tasks[nextId := t];
      nextId, clock := nextId + 1, clock + 1;
      r := Ok(t);
    }

    /** `task.save()` of a loaded task whose paths were assigned `f`: the
        validators run again; `createdAt` is kept and `updatedAt` moves on only
        when a path really changed. */
    method SaveTask(id: Id, f: TaskFields) returns (r: Result<Task, StoreError>)
      requires Valid() && id in tasks
      modifies this
      ensures Valid()
      ensures users == old(users)
      ensures Validate(f).Err? ==> r == Err(ValidationFailed(Validate(f).error)) && tasks == old(tasks)
      ensures Validate(f).Ok? ==>
        && r.Ok?
        && tasks == old(tasks)[id := r.value]
        && r.value.id == id
        && FieldsOf(r.value) == Validate(f).value
        && r.value.createdAt == old(tasks[id].createdAt)
        && r.value.updatedAt == if FieldsOf(old(tasks[id])) == Validate(f).value then old(tasks[id].updatedAt) else old(clock)
    {
      var v := Validate(f);
      if v.Err? {
        return Err(ValidationFailed(v.error));
      }
      var cur := tasks[id];
      var updated := if FieldsOf(cur) == v.value then cur.updatedAt else clock;
      var t := Task(id, v.value.userId, v.value.title, v.value.description, v.value.dueDate,
                    v.value.progress, cur.createdAt, updated);
      TasksStoredPut(tasks, nextId, clock, t);
      CreationOrderedReplace(tasks, t);
      UsersStoredLater(users, nextId, clock, nextId, clock + 1);
      tasks := tasks[id := t];
      clock := clock + 1;
      r := Ok(t);
    }

    /** `Task.findByIdAndDelete(id)`: removes the task, if any, and returns it. */
    method DeleteTaskById(id: Id) returns (deleted: Option<Task>)
      requires Valid()
      modifies this
      ensures Valid()
      ensures users == old(users)
      ensures tasks == old(tasks) - {id}
      ensures deleted == if id in old(tasks) then Some(old(tasks)[id]) else None
    {
      deleted := if id in tasks then Some(tasks[id]) else None;
      TasksStoredRemove(tasks, nextId, clock, id);
      CreationOrderedRemove(tasks, id);
      tasks := tasks - {id};
    }
  }
}
