/** The task routes of server/src/routes/tasks.js, all behind `authenticate`:
    the scoped list, and create, update and delete behind `authorizeTaskAccess`. */
module TaskRoutes {
  import opened Common
  import opened Primitives
  import opened UserModel
  import opened TaskModel
  import opened Database
  import opened AuthMiddleware
  import ErrorHandler

  // ---------------------------------------------------------------------------
  // GET /
  // ---------------------------------------------------------------------------

  /** Whose tasks a query selects: `{ userId }`, or the `$or` of the owner
      and `{ userId: { $in: studentIds } }`. */
  datatype Scope =
    | OwnedBy(owner: Id)
    | TeacherScope(teacher: Id, students: seq<Id>)

  /** The query object the handler builds. */
  datatype Query = Query(scope: Scope, progress: Option<Progress>)

  function IdsOf(us: seq<User>): (r: seq<Id>)
    ensures |r| == |us|
    ensures forall i :: 0 <= i < |us| ==> r[i] == us[i].id
  {
    if us == [] then [] else [us[0].id] + IdsOf(us[1..])
  }

  /** `User.find({ teacherId, role: 'student' }).select('_id')`. */
  function AssignedStudents(users: map<Id, User>, nextId: nat, teacher: Id): (ids: seq<Id>)
    requires KeyedBy(users, UserKey)
    ensures forall id :: id in ids ==> id in users && users[id].teacherId == Some(teacher) && users[id].role == Student
    ensures forall i, j :: 0 <= i < j < |ids| ==> ids[i] < ids[j]
  {
    IdsOf(Scan(users, UserKey, nextId, (u: User) => u.teacherId == Some(teacher) && u.role == Student))
  }

  lemma AssignedStudentsAre(users: map<Id, User>, nextId: nat, teacher: Id, id: Id)
    requires KeyedBy(users, UserKey) && IdsBelow(users, nextId)
    ensures id in AssignedStudents(users, nextId, teacher) <==>
      id in users && users[id].teacherId == Some(teacher) && users[id].role == Student
  {
    var found := Scan(users, UserKey, nextId, (u: User) => u.teacherId == Some(teacher) && u.role == Student);
    var ids := AssignedStudents(users, nextId, teacher);
    if id in ids {
      var k :| 0 <= k < |ids| && ids[k] == id;
      assert found[k] in found;
    }
    if id in users && users[id].teacherId == Some(teacher) && users[id].role == Student {
      assert UserKey(users[id]) == id;
      assert users[id] in found;
      var k :| 0 <= k < |found| && found[k] == users[id];
      assert ids[k] == id;
    }
  }

  /** The progress filter is used only when it is one of the three values. */
  function ProgressFilter(progress: Option<string>): (p: Option<Progress>)
    ensures p.Some? <==> Truthy(progress) && progress.value in ProgressValues
    ensures p.Some? ==> ProgressName(p.value) == progress.value
  {
    if Truthy(progress) then ParseProgress(progress.value) else None
  }

  function BuildQuery(users: map<Id, User>, nextId: nat, caller: Profile, progress: Option<string>): (q: Query)
    requires KeyedBy(users, UserKey)
    ensures q.scope.OwnedBy? <==> caller.role == Student
    ensures q.scope.OwnedBy? ==> q.scope.owner == caller.id
    ensures q.scope.TeacherScope? ==>
      && q.scope.teacher == caller.id
      && forall id :: id in q.scope.students ==> id in users && users[id].teacherId == Some(caller.id) && users[id].role == Student
    ensures q.progress == ProgressFilter(progress)
  {
    Query(if caller.role == Student then OwnedBy(caller.id)
          else TeacherScope(caller.id, AssignedStudents(users, nextId, caller.id)),
          ProgressFilter(progress))
  }

  predicate Matches(q: Query, t: Task)
  {
    && (match q.scope
        case OwnedBy(owner) => t.userId == owner
        case TeacherScope(teacher, students) => t.userId == teacher || t.userId in students)
    && (q.progress.Some? ==> t.progress == q.progress.value)
  }

  /** `Task.find(query).sort({ createdAt: -1 })`: the matching tasks in
      natural order, reversed. */
  function ListTasks(users: map<Id, User>, tasks: map<Id, Task>, nextId: nat, caller: Profile,
                     progress: Option<string>): (r: seq<Task>)
    requires KeyedBy(users, UserKey) && KeyedBy(tasks, TaskKey)
    ensures forall t :: t in r ==> t.id in tasks && tasks[t.id] == t && Matches(BuildQuery(users, nextId, caller, progress), t)
    ensures forall i, j :: 0 <= i < j < |r| ==> r[i].id > r[j].id
  {
    var q := BuildQuery(users, nextId, caller, progress);
    Reverse(Scan(tasks, TaskKey, nextId, (t: Task) => Matches(q, t)))
  }

  /** Who may see a task, stated without the query: a student its own
      tasks; a teacher its own and those of the students assigned to it. */
  predicate Visible(users: map<Id, User>, caller: Profile, t: Task)
  {
    || t.userId == caller.id
    || (caller.role == Teacher && t.userId in users
        && users[t.userId].role == Student && users[t.userId].teacherId == Some(caller.id))
  }

  /** A usable progress filter keeps only the tasks with that progress. */
  predicate ProgressAdmits(progress: Option<string>, t: Task)
  {
    Truthy(progress) && progress.value in ProgressValues ==> ProgressName(t.progress) == progress.value
  }

  /** The list is exactly the stored tasks the caller may see that pass the filter. */
  lemma ListScope(users: map<Id, User>, tasks: map<Id, Task>, nextId: nat, caller: Profile,
                  progress: Option<string>, t: Task)
    requires KeyedBy(users, UserKey) && KeyedBy(tasks, TaskKey)
    requires IdsBelow(users, nextId) && IdsBelow(tasks, nextId)
    ensures t in ListTasks(users, tasks, nextId, caller, progress) <==>
      t.id in tasks && tasks[t.id] == t && Visible(users, caller, t) && ProgressAdmits(progress, t)
  {
    var q := BuildQuery(users, nextId, caller, progress);
    var found := Scan(tasks, TaskKey, nextId, (x: Task) => Matches(q, x));
    var r := ListTasks(users, tasks, nextId, caller, progress);
    if t in found {
      var k :| 0 <= k < |found| && found[k] == t;
      assert r[|found| - 1 - k] == t;
    }
    if t.id in tasks && tasks[t.id] == t {
      assert TaskKey(t) == t.id;
    }
    QueryMeansVisible(users, nextId, caller, progress, t);
  }

  /** The query the handler builds selects a task exactly when the caller may
      see it and the filter admits it. */
  lemma QueryMeansVisible(users: map<Id, User>, nextId: nat, caller: Profile, progress: Option<string>, t: Task)
    requires KeyedBy(users, UserKey) && IdsBelow(users, nextId)
    ensures Matches(BuildQuery(users, nextId, caller, progress), t) <==> Visible(users, caller, t) && ProgressAdmits(progress, t)
  {
    var q := BuildQuery(users, nextId, caller, progress);
    if caller.role == Teacher {
      AssignedStudentsAre(users, nextId, caller.id, t.userId);
    }
    assert ProgressAdmits(progress, t) <==> (q.progress.Some? ==> t.progress == q.progress.value) by {
      if q.progress.Some? {
        ProgressNameInjective(t.progress, q.progress.value);
      }
    }
  }

  lemma ProgressNameInjective(p: Progress, q: Progress)
    ensures ProgressName(p) == ProgressName(q) <==> p == q
  {
  }

  /** A student's list holds only its own tasks. */
  lemma StudentSeesOwnOnly(users: map<Id, User>, tasks: map<Id, Task>, nextId: nat, caller: Profile,
                           progress: Option<string>)
    requires KeyedBy(users, UserKey) && KeyedBy(tasks, TaskKey)
    requires IdsBelow(users, nextId) && IdsBelow(tasks, nextId)
    requires caller.role == Student
    ensures forall t :: t in ListTasks(users, tasks, nextId, caller, progress) ==> t.userId == caller.id
  {
    forall t | t in ListTasks(users, tasks, nextId, caller, progress) ensures t.userId == caller.id {
      ListScope(users, tasks, nextId, caller, progress, t);
    }
  }

  /** Newest first: ids and creation times grow together, so the reversed
      natural order is descending `createdAt`. */
  lemma NewestFirst(users: map<Id, User>, tasks: map<Id, Task>, nextId: nat, caller: Profile,
                    progress: Option<string>)
    requires KeyedBy(users, UserKey) && KeyedBy(tasks, TaskKey) && CreationOrdered(tasks)
    ensures var r := ListTasks(users, tasks, nextId, caller, progress);
      forall i, j :: 0 <= i < j < |r| ==> r[i].createdAt > r[j].createdAt
  {
    var q := BuildQuery(users, nextId, caller, progress);
    var found := Scan(tasks, TaskKey, nextId, (x: Task) => Matches(q, x));
    var r := ListTasks(users, tasks, nextId, caller, progress);
    forall i, j | 0 <= i < j < |r| ensures r[i].createdAt > r[j].createdAt {
      var a, b := found[|found| - 1 - j], found[|found| - 1 - i];
      assert a in found && b in found;
      assert TaskKey(a) < TaskKey(b);
      assert tasks[a.id] == a && tasks[b.id] == b;
    }
  }

  /** A progress value outside the enum is ignored rather than refused. */
  lemma InvalidFilterIgnored(users: map<Id, User>, tasks: map<Id, Task>, nextId: nat, caller: Profile,
                             progress: Option<string>)
    requires KeyedBy(users, UserKey) && KeyedBy(tasks, TaskKey)
    requires !(Truthy(progress) && progress.value in ProgressValues)
    ensures ListTasks(users, tasks, nextId, caller, progress) == ListTasks(users, tasks, nextId, caller, None)
  {
    assert BuildQuery(users, nextId, caller, progress) == BuildQuery(users, nextId, caller, None);
  }

  /** `{ success, count, tasks }`. */
  datatype TaskList = TaskList(count: nat, tasks: seq<Task>)

  function GetTasks(users: map<Id, User>, tasks: map<Id, Task>, nextId: nat, header: Option<string>,
                    progress: Option<string>, o: Oracles): (r: Response<TaskList>)
    requires KeyedBy(users, UserKey) && KeyedBy(tasks, TaskKey)
    ensures r.Failure? <==> Authenticate(users, header, o).Err?
    ensures r.Failure? ==> r.reply == Authenticate(users, header, o).error
    ensures r.Success? ==>
      && r.status == 200 && r.message.None?
      && r.body.tasks == ListTasks(users, tasks, nextId, Authenticate(users, header, o).value, progress)
      && r.body.count == |r.body.tasks|
  {
    match Authenticate(users, header, o)
    case Err(reply) => Failure(reply)
    case Ok(caller) =>
      var list := ListTasks(users, tasks, nextId, caller, progress);
      Success(200, None, TaskList(|list|, list))
  }

  // ---------------------------------------------------------------------------
  // Request validation of POST / and PUT /:id
  // ---------------------------------------------------------------------------

  const TitleRequired: string := "Title is required"
  const TitleEmpty: string := "Title cannot be empty"
  const TitleTooLong: string := "Title cannot exceed 200 characters"
  const DescriptionTooLong: string := "Description cannot exceed 1000 characters"
  const DueDateInvalid: string := "Due date must be a valid date"
  const ProgressInvalid: string := "Progress must be one of: not-started, in-progress, completed"

  /** The rules both routes share: `description`, `dueDate` and `progress`
      are `optional()`, so only an absent field skips them. */
  function OptionalFieldErrors(b: TaskBody, o: Oracles): (errs: seq<string>)
    ensures errs == [] <==>
      && (b.description.Some? ==> ValidatorLength(Trim(b.description.value)) <= DescriptionMax)
      && (b.dueDate.Some? ==> o.isISO8601(b.dueDate.value))
      && (b.progress.Some? ==> b.progress.value in ProgressValues)
  {
    (if b.description.Some? && ValidatorLength(Trim(b.description.value)) > DescriptionMax then [DescriptionTooLong] else [])
    + (if b.dueDate.Some? && !o.isISO8601(b.dueDate.value) then [DueDateInvalid] else [])
    + (if b.progress.Some? && b.progress.value !in ProgressValues then [ProgressInvalid] else [])
  }

  /** The title rules of POST: trimmed, then `notEmpty` and `isLength({ max: 200 })`. */
  function PostTitleErrors(b: TaskBody): (errs: seq<string>)
    ensures errs == [] <==> Trim(ValueOf(b.title)) != "" && ValidatorLength(Trim(ValueOf(b.title))) <= TitleMax
  {
    var t := Trim(ValueOf(b.title));
    (if t == "" then [TitleRequired] else []) + (if ValidatorLength(t) > TitleMax then [TitleTooLong] else [])
  }

  /** The title rules of PUT: the same checks, `optional()`, with their own message. */
  function PutTitleErrors(b: TaskBody): (errs: seq<string>)
    ensures errs == [] <==> (b.title.Some? ==> Trim(b.title.value) != "" && ValidatorLength(Trim(b.title.value)) <= TitleMax)
  {
    if b.title.None? then []
    else
      var t := Trim(b.title.value);
      (if t == "" then [TitleEmpty] else []) + (if ValidatorLength(t) > TitleMax then [TitleTooLong] else [])
  }

  // ---------------------------------------------------------------------------
  // POST /
  // ---------------------------------------------------------------------------

  /** The document `Task.create` receives: the owner is the caller, whatever
      the body said; the sanitised title and description; the defaults. */
  function NewTaskFields(owner: Id, b: TaskBody): (f: TaskFields)
    ensures f.userId == owner && f.title == Trim(ValueOf(b.title))
    ensures b.description.None? ==> f.description == ""
    ensures b.description.Some? ==> f.description == Trim(b.description.value)
    ensures !Truthy(b.dueDate) ==> f.dueDate.None?
    ensures Truthy(b.dueDate) ==> f.dueDate == b.dueDate
    ensures b.progress.None? ==> f.progress == DefaultProgress
    ensures b.progress.Some? && b.progress.value in ProgressValues ==> ProgressName(f.progress) == b.progress.value
  {
    TaskFields(owner, Trim(ValueOf(b.title)),
               if b.description.Some? then Trim(b.description.value) else "",
               if Truthy(b.dueDate) then b.dueDate else None,
               if b.progress.Some? && ParseProgress(b.progress.value).Some? then ParseProgress(b.progress.value).value
               else DefaultProgress)
  }

  /** Authentication, then `authorizeTaskAccess`, then the validators: the
      fields to create, or the first refusal. */
  function PostDecision(users: map<Id, User>, tasks: map<Id, Task>, header: Option<string>,
                        b: TaskBody, o: Oracles): (r: Result<TaskFields, Reply>)
    requires KeyedBy(users, UserKey)
    ensures r.Ok? <==>
      && Authenticate(users, header, o).Ok?
      && !(Truthy(b.userId) && b.userId.value != o.idText(Authenticate(users, header, o).value.id))
      && PostTitleErrors(b) == [] && OptionalFieldErrors(b, o) == []
    ensures r.Ok? ==>
      && r.value == NewTaskFields(Authenticate(users, header, o).value.id, b)
      && r.value.userId in users
    ensures Authenticate(users, header, o).Err? ==> r == Err(Authenticate(users, header, o).error)
    ensures Authenticate(users, header, o).Ok? ==>
      var caller := Authenticate(users, header, o).value;
      && (AuthorizeCreate(caller, b.userId, o).Err? ==> r == Err(AuthorizeCreate(caller, b.userId, o).error))
      && (AuthorizeCreate(caller, b.userId, o).Ok? && PostTitleErrors(b) + OptionalFieldErrors(b, o) != [] ==>
            r == Err(Refuse(400, Join(PostTitleErrors(b) + OptionalFieldErrors(b, o), ", "))))
    ensures r.Err? ==> !r.error.success
  {
    match Authenticate(users, header, o)
    case Err(reply) => Err(reply)
    case Ok(caller) =>
      match AuthorizeCreate(caller, b.userId, o)
      case Err(reply) => Err(reply)
      case Ok(owner) =>
        var errs := PostTitleErrors(b) + OptionalFieldErrors(b, o);
        if errs != [] then Err(Refuse(400, Join(errs, ", ")))
        else Ok(NewTaskFields(owner, b))
  }

  /** What the route checks is what the schema demands, except that the
      schema counts UTF-16 code units: for text inside the Basic Multilingual
      Plane a request the route admits is stored unchanged. */
  lemma AdmittedIsStored(users: map<Id, User>, tasks: map<Id, Task>, header: Option<string>, b: TaskBody, o: Oracles)
    requires KeyedBy(users, UserKey)
    requires PostDecision(users, tasks, header, b, o).Ok?
    requires Utf16Length(Trim(ValueOf(b.title))) == ValidatorLength(Trim(ValueOf(b.title)))
    requires b.description.Some? ==> Utf16Length(Trim(b.description.value)) == ValidatorLength(Trim(b.description.value))
    ensures Validate(PostDecision(users, tasks, header, b, o).value) == Ok(PostDecision(users, tasks, header, b, o).value)
  {
    var f := PostDecision(users, tasks, header, b, o).value;
    TrimIdempotent(ValueOf(b.title));
    if b.description.Some? {
      TrimIdempotent(b.description.value);
    }
    assert FieldsValid(f);
    ValidateKeepsValid(f);
  }

  /** `POST /`: the decision, then `Task.create`. */
  method PostTask(db: Store, header: Option<string>, b: TaskBody, o: Oracles) returns (resp: Response<Task>)
    requires db.Valid() && db.Linked()
    modifies db
    ensures db.Valid() && db.Linked()
    ensures db.users == old(db.users)
    ensures resp.Failure? ==> db.tasks == old(db.tasks) && !resp.reply.success
    ensures PostDecision(old(db.users), old(db.tasks), header, b, o).Err? ==>
      resp == Failure(PostDecision(old(db.users), old(db.tasks), header, b, o).error)
    ensures PostDecision(old(db.users), old(db.tasks), header, b, o).Ok? ==>
      var f := PostDecision(old(db.users), old(db.tasks), header, b, o).value;
      && (Validate(f).Err? ==> resp == Failure(ErrorHandler.Handle(ErrorHandler.Thrown(ValidationFailed(Validate(f).error)))))
      && (Validate(f).Ok? ==> resp.Success?)
    ensures resp.Success? ==>
      var f := PostDecision(old(db.users), old(db.tasks), header, b, o).value;
      && resp.status == 201 && resp.message == Some("Task created successfully.")
      && resp.body.id == old(db.nextId) && resp.body.id !in old(db.tasks)
      && db.tasks == old(db.tasks)[resp.body.id := resp.body]
      && FieldsOf(resp.body) == Validate(f).value
      && resp.body.userId == Authenticate(old(db.users), header, o).value.id
      && resp.body.createdAt == resp.body.updatedAt == old(db.clock)
  {
    var decision := PostDecision(db.users, db.tasks, header, b, o);
    if decision.Err? {
      return Failure(decision.error);
    }
    ghost var tasks0 := db.tasks;
    var created := db.CreateTask(decision.value);
    if created.Err? {
      ErrorHandler.StoreErrorsAre400(created.error);
      return Failure(ErrorHandler.Handle(ErrorHandler.Thrown(created.error)));
    }
    OwnersExistPut(db.users, tasks0, created.value);
    resp := Success(201, Some("Task created successfully."), created.value);
  }

  // ---------------------------------------------------------------------------
  // PUT /:id
  // ---------------------------------------------------------------------------

  /** Mongoose's cast of a `Date` path: '' becomes `null`. */
  function CastDate(s: string): (d: Option<string>)
    ensures d.None? <==> s == ""
  {
    if s == "" then None else Some(s)
  }

  /** The task's paths after `if (x !== undefined) task.x = x` for each field. */
  function UpdatedFields(cur: Task, b: TaskBody): (f: TaskFields)
    ensures f.userId == cur.userId
    ensures b.title.None? ==> f.title == cur.title
    ensures b.description.None? ==> f.description == cur.description
    ensures b.dueDate.None? ==> f.dueDate == cur.dueDate
    ensures b.progress.None? ==> f.progress == cur.progress
    ensures b.title.Some? ==> f.title == Trim(b.title.value)
    ensures b.description.Some? ==> f.description == Trim(b.description.value)
    ensures b.dueDate.Some? ==> f.dueDate == CastDate(b.dueDate.value)
    ensures b.progress.Some? && b.progress.value in ProgressValues ==> ProgressName(f.progress) == b.progress.value
  {
    TaskFields(cur.userId,
               if b.title.Some? then Trim(b.title.value) else cur.title,
               if b.description.Some? then Trim(b.description.value) else cur.description,
               if b.dueDate.Some? then CastDate(b.dueDate.value) else cur.dueDate,
               if b.progress.Some? && ParseProgress(b.progress.value).Some? then ParseProgress(b.progress.value).value
               else cur.progress)
  }

  /** An update with no fields leaves the task's paths as they are. */
  lemma EmptyUpdateKeepsFields(cur: Task)
    ensures UpdatedFields(cur, TaskBody(None, None, None, None, None)) == FieldsOf(cur)
  {
  }

  /** Authentication, the ownership ladder, then the validators: the task to
      save and its new paths, or the first refusal. */
  function PutDecision(users: map<Id, User>, tasks: map<Id, Task>, header: Option<string>,
                       idParam: Option<string>, b: TaskBody, o: Oracles): (r: Result<(Id, TaskFields), Reply>)
    requires KeyedBy(users, UserKey)
    ensures r.Ok? <==>
      && Authenticate(users, header, o).Ok?
      && OwnsTaskAt(tasks, Authenticate(users, header, o).value, idParam, o)
      && PutTitleErrors(b) == [] && OptionalFieldErrors(b, o) == []
    ensures r.Ok? ==>
      && r.value.0 == o.objectId(idParam.value).value && r.value.0 in tasks
      && tasks[r.value.0].userId == Authenticate(users, header, o).value.id
      && r.value.1 == UpdatedFields(tasks[r.value.0], b)
    ensures Authenticate(users, header, o).Err? ==> r == Err(Authenticate(users, header, o).error)
    ensures Authenticate(users, header, o).Ok? ==>
      var caller := Authenticate(users, header, o).value;
      && (AuthorizeModify(tasks, caller, idParam, o).Err? ==> r == Err(AuthorizeModify(tasks, caller, idParam, o).error))
      && (AuthorizeModify(tasks, caller, idParam, o).Ok? && PutTitleErrors(b) + OptionalFieldErrors(b, o) != [] ==>
            r == Err(Refuse(400, Join(PutTitleErrors(b) + OptionalFieldErrors(b, o), ", "))))
    ensures r.Err? ==> !r.error.success
  {
    match Authenticate(users, header, o)
    case Err(reply) => Err(reply)
    case Ok(caller) =>
      match AuthorizeModify(tasks, caller, idParam, o)
      case Err(reply) => Err(reply)
      case Ok(task) =>
        var errs := PutTitleErrors(b) + OptionalFieldErrors(b, o);
        if errs != [] then Err(Refuse(400, Join(errs, ", ")))
        else Ok((o.objectId(idParam.value).value, UpdatedFields(task, b)))
  }

  /** `PUT /:id`: the decision, then `task.save()`. */
  method PutTask(db: Store, header: Option<string>, idParam: Option<string>, b: TaskBody, o: Oracles)
    returns (resp: Response<Task>)
    requires db.Valid() && db.Linked()
    modifies db
    ensures db.Valid() && db.Linked()
    ensures db.users == old(db.users)
    ensures resp.Failure? ==> db.tasks == old(db.tasks) && !resp.reply.success
    ensures PutDecision(old(db.users), old(db.tasks), header, idParam, b, o).Err? ==>
      resp == Failure(PutDecision(old(db.users), old(db.tasks), header, idParam, b, o).error)
    ensures PutDecision(old(db.users), old(db.tasks), header, idParam, b, o).Ok? ==>
      var (id, f) := PutDecision(old(db.users), old(db.tasks), header, idParam, b, o).value;
      && (Validate(f).Err? ==> resp == Failure(ErrorHandler.Handle(ErrorHandler.Thrown(ValidationFailed(Validate(f).error)))))
      && (Validate(f).Ok? ==> resp.Success?)
    ensures resp.Success? ==>
      var (id, f) := PutDecision(old(db.users), old(db.tasks), header, idParam, b, o).value;
      && resp.status == 200 && resp.message == Some("Task updated successfully.")
      && db.tasks == old(db.tasks)[id := resp.body]
      && resp.body.id == id && FieldsOf(resp.body) == Validate(f).value
      && resp.body.userId == old(db.tasks)[id].userId
      && resp.body.createdAt == old(db.tasks)[id].createdAt
  {
    var decision := PutDecision(db.users, db.tasks, header, idParam, b, o);
    if decision.Err? {
      return Failure(decision.error);
    }
    var (id, f) := decision.value;
    ghost var tasks0 := db.tasks;
    var saved := db.SaveTask(id, f);
    if saved.Err? {
      ErrorHandler.StoreErrorsAre400(saved.error);
      return Failure(ErrorHandler.Handle(ErrorHandler.Thrown(saved.error)));
    }
    OwnersExistPut(db.users, tasks0, saved.value);
    resp := Success(200, Some("Task updated successfully."), saved.value);
  }

  // ---------------------------------------------------------------------------
  // DELETE /:id
  // ---------------------------------------------------------------------------

  /** Authentication, then the ownership ladder: the task to delete, or the refusal. */
  function DeleteDecision(users: map<Id, User>, tasks: map<Id, Task>, header: Option<string>,
                          idParam: Option<string>, o: Oracles): (r: Result<Id, Reply>)
    requires KeyedBy(users, UserKey)
    ensures r.Ok? <==>
      Authenticate(users, header, o).Ok? && OwnsTaskAt(tasks, Authenticate(users, header, o).value, idParam, o)
    ensures r.Ok? ==>
      && r.value == o.objectId(idParam.value).value && r.value in tasks
      && tasks[r.value].userId == Authenticate(users, header, o).value.id
    ensures Authenticate(users, header, o).Err? ==> r == Err(Authenticate(users, header, o).error)
    ensures Authenticate(users, header, o).Ok? && AuthorizeModify(tasks, Authenticate(users, header, o).value, idParam, o).Err? ==>
      r == Err(AuthorizeModify(tasks, Authenticate(users, header, o).value, idParam, o).error)
    ensures r.Err? ==> !r.error.success
  {
    match Authenticate(users, header, o)
    case Err(reply) => Err(reply)
    case Ok(caller) =>
      match AuthorizeModify(tasks, caller, idParam, o)
      case Err(reply) => Err(reply)
      case Ok(task) => Ok(o.objectId(idParam.value).value)
  }

  /** `DELETE /:id`: the decision, then `Task.findByIdAndDelete`. */
  method DeleteTask(db: Store, header: Option<string>, idParam: Option<string>, o: Oracles)
    returns (resp: Response<()>)
    requires db.Valid() && db.Linked()
    modifies db
    ensures db.Valid() && db.Linked()
    ensures db.users == old(db.users)
    ensures resp.Success? <==> DeleteDecision(old(db.users), old(db.tasks), header, idParam, o).Ok?
    ensures resp.Failure? ==>
      && db.tasks == old(db.tasks)
      && resp.reply == DeleteDecision(old(db.users), old(db.tasks), header, idParam, o).error
    ensures resp.Success? ==>
      && db.tasks == old(db.tasks) - {DeleteDecision(old(db.users), old(db.tasks), header, idParam, o).value}
      && resp.status == 200 && resp.message == Some("Task deleted successfully.")
  {
    var decision := DeleteDecision(db.users, db.tasks, header, idParam, o);
    if decision.Err? {
      return Failure(decision.error);
    }
    ghost var tasks0 := db.tasks;
    var _ := db.DeleteTaskById(decision.value);
    OwnersExistRemove(db.users, tasks0, decision.value);
    resp := Success(200, Some("Task deleted successfully."), ());
  }
}
