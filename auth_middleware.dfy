/** The two middlewares of server/src/middleware/auth.js: `authenticate`
    resolves the bearer token to a stored user, and `authorizeTaskAccess`
    decides who may create, change or delete a task. */
module AuthMiddleware {
  import opened Common
  import opened Primitives
  import opened UserModel
  import opened TaskModel
  import opened Database

  const BearerPrefix: string := "Bearer "

  const AuthRequired: string := "Authentication required. Please provide a valid token."
  const UserGone: string := "User not found. Token is invalid."
  const TokenInvalid: string := "Invalid token. Please login again."
  const TokenExpired: string := "Token expired. Please login again."
  const AuthFailed: string := "Authentication error occurred."

  /** The token of an `Authorization` header: what follows "Bearer ". */
  function BearerToken(header: Option<string>): (r: Option<string>)
    ensures r.Some? <==> header.Some? && |header.value| >= |BearerPrefix| && header.value[..|BearerPrefix|] == BearerPrefix
    ensures r.Some? ==> header.value == BearerPrefix + r.value
  {
    if Truthy(header) && |header.value| >= |BearerPrefix| && header.value[..|BearerPrefix|] == BearerPrefix
    then Some(header.value[|BearerPrefix|..])
    else None
  }

  /** A header built from a token gives that token back. */
  lemma BearerRoundTrip(token: string)
    ensures BearerToken(Some(BearerPrefix + token)) == Some(token)
  {
    assert (BearerPrefix + token)[..|BearerPrefix|] == BearerPrefix;
    assert (BearerPrefix + token)[|BearerPrefix|..] == token;
  }

  /** `authenticate`: the user the request acts as (`req.user`, read without
      its hash), or the refusal. */
  function Authenticate(users: map<Id, User>, header: Option<string>, o: Oracles): (r: Result<Profile, Reply>)
    requires KeyedBy(users, UserKey)
    ensures r.Ok? <==>
      BearerToken(header).Some? && o.verifyJwt(BearerToken(header).value).Decoded?
      && o.verifyJwt(BearerToken(header).value).userId in users
    ensures r.Ok? ==>
      && r.value.id in users && r.value == ProfileOf(users[r.value.id])
      && o.verifyJwt(BearerToken(header).value) == Decoded(r.value.id)
    ensures r.Err? ==> r.error.status in {401, 500} && !r.error.success
    ensures r.Err? && r.error.status == 500 ==>
      BearerToken(header).Some? && o.verifyJwt(BearerToken(header).value).OtherError?
  {
    match BearerToken(header)
    case None => Err(Refuse(401, AuthRequired))
    case Some(token) =>
      match o.verifyJwt(token)
      case Decoded(userId) =>
        assert userId in users ==> UserKey(users[userId]) == userId;
        if userId in users then Ok(ProfileOf(users[userId])) else Err(Refuse(401, UserGone))
      case JsonWebTokenError => Err(Refuse(401, TokenInvalid))
      case TokenExpiredError => Err(Refuse(401, TokenExpired))
      case OtherError => Err(Refuse(500, AuthFailed))
  }

  /** Each way a token can fail is told apart by its message. */
  lemma AuthenticateRefusals(users: map<Id, User>, token: string, o: Oracles)
    requires KeyedBy(users, UserKey)
    ensures Authenticate(users, None, o) == Err(Refuse(401, AuthRequired))
    ensures o.verifyJwt(token).JsonWebTokenError? ==>
      Authenticate(users, Some(BearerPrefix + token), o) == Err(Refuse(401, TokenInvalid))
    ensures o.verifyJwt(token).TokenExpiredError? ==>
      Authenticate(users, Some(BearerPrefix + token), o) == Err(Refuse(401, TokenExpired))
    ensures o.verifyJwt(token).Decoded? && o.verifyJwt(token).userId !in users ==>
      Authenticate(users, Some(BearerPrefix + token), o) == Err(Refuse(401, UserGone))
  {
    BearerRoundTrip(token);
  }

  // ---------------------------------------------------------------------------
  // authorizeTaskAccess
  // ---------------------------------------------------------------------------

  datatype Method = Get | Post | Put | Delete

  /** What the middleware lets through: a create with the owner it sets in
      `req.body.userId`, a change to the task it puts in `req.task`, or any
      other request unchanged. */
  datatype Access =
    | Denied(reply: Reply)
    | CreateAs(owner: Id)
    | Modify(task: Task)
    | PassOn

  const ForeignCreate: string := "Forbidden: You can only create tasks for yourself."
  const IdRequired: string := "Task ID is required."
  const TaskMissing: string := "Task not found."
  const ForeignModify: string := "Forbidden: You can only modify tasks that you created."
  const AuthorizeFailed: string := "Authorization error occurred."

  /** Whether a `:id` parameter, once cast, names the task of `caller`. */
  predicate OwnsTaskAt(tasks: map<Id, Task>, caller: Profile, idParam: Option<string>, o: Oracles)
  {
    && Truthy(idParam)
    && o.objectId(idParam.value).Some?
    && o.objectId(idParam.value).value in tasks
    && tasks[o.objectId(idParam.value).value].userId == caller.id
  }

  /** The POST branch of `authorizeTaskAccess`: a `userId` in the body must
      name the caller; the owner becomes the caller either way. */
  function AuthorizeCreate(caller: Profile, bodyUserId: Option<string>, o: Oracles): (r: Result<Id, Reply>)
    ensures r.Err? <==> Truthy(bodyUserId) && bodyUserId.value != o.idText(caller.id)
    ensures r.Ok? ==> r.value == caller.id
    ensures r.Err? ==> r.error == Refuse(403, ForeignCreate)
  {
    if Truthy(bodyUserId) && bodyUserId.value != o.idText(caller.id) then Err(Refuse(403, ForeignCreate))
    else Ok(caller.id)
  }

  /** The PUT and DELETE branch of `authorizeTaskAccess`. Owners are compared
      as ObjectIds; a `:id` that does not cast makes `Task.findById` throw a
      CastError, which the middleware's own catch answers with 500. */
  function AuthorizeModify(tasks: map<Id, Task>, caller: Profile, idParam: Option<string>, o: Oracles)
    : (r: Result<Task, Reply>)
    ensures r.Ok? <==> OwnsTaskAt(tasks, caller, idParam, o)
    ensures r.Ok? ==> r.value == tasks[o.objectId(idParam.value).value] && r.value.userId == caller.id
    ensures r.Err? ==> !r.error.success && r.error.status in {400, 403, 404, 500}
  {
    if !Truthy(idParam) then Err(Refuse(400, IdRequired))
    else match o.objectId(idParam.value)
      case None => Err(Refuse(500, AuthorizeFailed))
      case Some(id) =>
        if id !in tasks then Err(Refuse(404, TaskMissing))
        else if tasks[id].userId != caller.id then Err(Refuse(403, ForeignModify))
        else Ok(tasks[id])
  }

  /** `authorizeTaskAccess`: POST, PUT and DELETE are checked, anything else
      passes on untouched. */
  function AuthorizeTaskAccess(tasks: map<Id, Task>, caller: Profile, verb: Method,
                               idParam: Option<string>, bodyUserId: Option<string>, o: Oracles): (a: Access)
    ensures verb == Get <==> a.PassOn?
    ensures verb == Post ==>
      if Truthy(bodyUserId) && bodyUserId.value != o.idText(caller.id)
      then a == Denied(Refuse(403, ForeignCreate))
      else a == CreateAs(caller.id)
    ensures verb in {Put, Delete} ==>
      (a.Modify? <==> OwnsTaskAt(tasks, caller, idParam, o))
    ensures a.Modify? ==> a.task == tasks[o.objectId(idParam.value).value] && a.task.userId == caller.id
    ensures a.Denied? ==> !a.reply.success && a.reply.status in {400, 403, 404, 500}
  {
    match verb
    case Get => PassOn
    case Post =>
      (match AuthorizeCreate(caller, bodyUserId, o)
       case Ok(owner) => CreateAs(owner)
       case Err(reply) => Denied(reply))
    case _ =>
      match AuthorizeModify(tasks, caller, idParam, o)
      case Ok(task) => Modify(task)
      case Err(reply) => Denied(reply)
  }

  /** A `:id` that names a stored task of somebody else. */
  predicate OwnerOtherThan(tasks: map<Id, Task>, caller: Profile, idParam: Option<string>, o: Oracles)
  {
    && Truthy(idParam)
    && o.objectId(idParam.value).Some?
    && o.objectId(idParam.value).value in tasks
    && tasks[o.objectId(idParam.value).value].userId != caller.id
  }

  /** The ladder of PUT and DELETE, rung by rung: a missing id, an id that
      does not cast, an unknown task, somebody else's task. */
  lemma ModifyLadder(tasks: map<Id, Task>, caller: Profile, verb: Method,
                     idParam: Option<string>, bodyUserId: Option<string>, o: Oracles)
    requires verb == Put || verb == Delete
    ensures !Truthy(idParam) ==>
      AuthorizeTaskAccess(tasks, caller, verb, idParam, bodyUserId, o) == Denied(Refuse(400, IdRequired))
    ensures Truthy(idParam) && o.objectId(idParam.value).None? ==>
      AuthorizeTaskAccess(tasks, caller, verb, idParam, bodyUserId, o) == Denied(Refuse(500, AuthorizeFailed))
    ensures Truthy(idParam) && o.objectId(idParam.value).Some? && o.objectId(idParam.value).value !in tasks ==>
      AuthorizeTaskAccess(tasks, caller, verb, idParam, bodyUserId, o) == Denied(Refuse(404, TaskMissing))
    ensures OwnerOtherThan(tasks, caller, idParam, o) ==>
      AuthorizeTaskAccess(tasks, caller, verb, idParam, bodyUserId, o) == Denied(Refuse(403, ForeignModify))
  {
  }

  /** The body's `userId` never decides anything for PUT and DELETE. */
  lemma BodyIgnoredOnModify(tasks: map<Id, Task>, caller: Profile, verb: Method,
                            idParam: Option<string>, b1: Option<string>, b2: Option<string>, o: Oracles)
    requires verb == Put || verb == Delete
    ensures AuthorizeTaskAccess(tasks, caller, verb, idParam, b1, o)
         == AuthorizeTaskAccess(tasks, caller, verb, idParam, b2, o)
  {
  }
}
