/** The account routes of server/src/routes/auth.js: `POST /signup` and
    `POST /login`. */
module AuthRoutes {
  import opened Common
  import opened Primitives
  import opened UserModel
  import opened Database
  import ErrorHandler
  import AuthMiddleware

  /** The login throttle of `express-rate-limit`: at most this many attempts
      per window from one client. */
  const LoginWindowMs: nat := 15 * 60 * 1000
  const LoginMaxAttempts: nat := 5
  const LoginThrottled: string := "Too many login attempts. Please try again later."

  const PasswordMin: nat := 6

  /** What a successful signup or login sends besides its message. */
  datatype Session = Session(token: Token, user: UserView)

  /** `jwt.sign({ userId, role }, JWT_SECRET, { expiresIn: '7d' })`. */
  function IssueToken(u: User): (t: Token)
    ensures t.userId == u.id && t.role == u.role && t.expiresIn == TokenLifetime
  {
    Token(u.id, u.role, TokenLifetime)
  }

  // ---------------------------------------------------------------------------
  // POST /signup
  // ---------------------------------------------------------------------------

  /** The signup route's own validator chain; `teacherId` is `optional()`, so
      only a missing field skips its check. */
  function SignupFieldErrors(b: SignupBody, o: Oracles): (errs: seq<string>)
    ensures errs == [] <==>
      && o.isEmail(ValueOf(b.email))
      && ValidatorLength(ValueOf(b.password)) >= PasswordMin
      && ValueOf(b.role) in RoleValues
      && (b.teacherId.Some? ==> o.objectId(b.teacherId.value).Some?)
  {
    (if o.isEmail(ValueOf(b.email)) then [] else ["Please provide a valid email address"])
    + (if ValidatorLength(ValueOf(b.password)) >= PasswordMin then [] else ["Password must be at least 6 characters long"])
    + (if ValueOf(b.role) in RoleValues then [] else ["Role must be either \"student\" or \"teacher\""])
    + (if b.teacherId.None? || o.objectId(b.teacherId.value).Some? then [] else ["Teacher ID must be a valid MongoDB ID"])
  }

  /** The user the route asks the store to create: `email` as the sanitiser
      left it, the plain password, and a teacher only for a student. */
  datatype Draft = Draft(email: string, password: string, role: Role, teacherId: Option<Id>)

  const StudentWithoutTeacher: string := "Students must have a valid teacherId."
  const TeacherUnknown: string := "Teacher not found. Please provide a valid teacherId."
  const TeacherNotTeacher: string := "The provided teacherId does not belong to a teacher."
  const EmailTaken: string := "Email already registered. Please use a different email or login."

  /** The checks of the signup handler before `User.create`, in their order. */
  function SignupDecision(users: map<Id, User>, nextId: nat, b: SignupBody, o: Oracles): (r: Result<Draft, Reply>)
    requires KeyedBy(users, UserKey) && IdsBelow(users, nextId)
    ensures SignupFieldErrors(b, o) != [] ==> r == Err(Refuse(400, Join(SignupFieldErrors(b, o), ", ")))
    ensures r.Err? ==> r.error.status == 400 && !r.error.success
    ensures r.Ok? <==>
      && SignupFieldErrors(b, o) == []
      && !(ValueOf(b.role) == "student" && !Truthy(b.teacherId))
      && TeacherOk(users, b, o)
      && !EmailInUse(users, NormalizeEmail(o.normalizeEmail(ValueOf(b.email))))
    ensures r.Ok? ==>
      && SignupFieldErrors(b, o) == []
      && r.value.email == o.normalizeEmail(ValueOf(b.email))
      && r.value.password == ValueOf(b.password) && ValidatorLength(r.value.password) >= PasswordMin
      && RoleName(r.value.role) == ValueOf(b.role)
      && (r.value.teacherId.Some? <==> r.value.role == Student)
      && (r.value.teacherId.Some? ==>
            && Truthy(b.teacherId) && o.objectId(b.teacherId.value) == r.value.teacherId
            && r.value.teacherId.value in users && users[r.value.teacherId.value].role == Teacher)
      && !EmailInUse(users, NormalizeEmail(r.value.email))
  {
    var errs := SignupFieldErrors(b, o);
    if errs != [] then Err(Refuse(400, Join(errs, ", ")))
    else
      var email := o.normalizeEmail(ValueOf(b.email));
      var role := ParseRole(ValueOf(b.role)).value;
      if role == Student && !Truthy(b.teacherId) then Err(Refuse(400, StudentWithoutTeacher))
      else if Truthy(b.teacherId) && o.objectId(b.teacherId.value).value !in users then
        Err(Refuse(400, TeacherUnknown))
      else if Truthy(b.teacherId) && users[o.objectId(b.teacherId.value).value].role != Teacher then
        Err(Refuse(400, TeacherNotTeacher))
      else if FindUserByEmail(users, nextId, NormalizeEmail(email)).Some? then
        Err(Refuse(400, EmailTaken))
      else
        Ok(Draft(email, ValueOf(b.password), role,
                 if role == Student then o.objectId(b.teacherId.value) else None))
  }

  /** A `teacherId`, when given, names a stored teacher. */
  predicate TeacherOk(users: map<Id, User>, b: SignupBody, o: Oracles)
    requires SignupFieldErrors(b, o) == []
  {
    Truthy(b.teacherId) ==>
      o.objectId(b.teacherId.value).value in users && users[o.objectId(b.teacherId.value).value].role == Teacher
  }

  /** The checks after field validation, rung by rung. */
  lemma SignupLadder(users: map<Id, User>, nextId: nat, b: SignupBody, o: Oracles)
    requires KeyedBy(users, UserKey) && IdsBelow(users, nextId)
    requires SignupFieldErrors(b, o) == []
    ensures ValueOf(b.role) == "student" && !Truthy(b.teacherId) ==>
      SignupDecision(users, nextId, b, o) == Err(Refuse(400, StudentWithoutTeacher))
    ensures Truthy(b.teacherId) && o.objectId(b.teacherId.value).value !in users ==>
      SignupDecision(users, nextId, b, o) == Err(Refuse(400, TeacherUnknown))
    ensures (Truthy(b.teacherId) && o.objectId(b.teacherId.value).value in users
             && users[o.objectId(b.teacherId.value).value].role != Teacher) ==>
      SignupDecision(users, nextId, b, o) == Err(Refuse(400, TeacherNotTeacher))
    ensures (!(ValueOf(b.role) == "student" && !Truthy(b.teacherId)) && TeacherOk(users, b, o)
             && EmailInUse(users, NormalizeEmail(o.normalizeEmail(ValueOf(b.email))))) ==>
      SignupDecision(users, nextId, b, o) == Err(Refuse(400, EmailTaken))
  {
  }

  /** `User.create` of a draft that passed the route's checks: the unique
      index cannot refuse it, the schema's `match` on the email still can. */
  method Register(db: Store, d: Draft, salt: string) returns (r: Result<User, StoreError>)
    requires db.Valid() && db.Linked() && IsSalt(salt)
    requires d.teacherId.Some? <==> d.role == Student
    requires d.teacherId.Some? ==> d.teacherId.value in db.users && db.users[d.teacherId.value].role == Teacher
    requires !EmailInUse(db.users, NormalizeEmail(d.email))
    modifies db
    ensures db.Valid() && db.Linked()
    ensures db.tasks == old(db.tasks)
    ensures r.Err? <==> UserModel.SchemaErrors(NormalizeEmail(d.email), d.password, d.role, d.teacherId) != []
    ensures r.Err? ==>
      && db.users == old(db.users)
      && r.error == ValidationFailed(UserModel.SchemaErrors(NormalizeEmail(d.email), d.password, d.role, d.teacherId))
    ensures r.Ok? ==>
      && r.value.id == old(db.nextId) && r.value.id !in old(db.users)
      && db.users == old(db.users)[r.value.id := r.value]
      && r.value.email == NormalizeEmail(d.email) && r.value.role == d.role && r.value.teacherId == d.teacherId
      && (forall p :: ComparePassword(r.value, p) <==> BcryptKey(p) == BcryptKey(d.password))
  {
    ghost var users0 := db.users;
    r := db.CreateUser(d.email, d.password, d.role, d.teacherId, salt);
    if r.Ok? {
      TeacherLinksInsert(users0, r.value);
      OwnersExistGrow(users0, db.users, db.tasks);
    }
  }

  /** `POST /signup`: the decision, then `User.create`; an error the store
      throws goes to the error handler. */
  method Signup(db: Store, b: SignupBody, o: Oracles, salt: string) returns (resp: Response<Session>)
    requires db.Valid() && db.Linked() && IsSalt(salt)
    modifies db
    ensures db.Valid() && db.Linked()
    ensures db.tasks == old(db.tasks)
    ensures resp.Failure? ==> db.users == old(db.users) && !resp.reply.success && resp.reply.status == 400
    ensures SignupDecision(old(db.users), old(db.nextId), b, o).Err? ==>
      resp == Failure(SignupDecision(old(db.users), old(db.nextId), b, o).error)
    ensures SignupDecision(old(db.users), old(db.nextId), b, o).Ok? ==>
      var d := SignupDecision(old(db.users), old(db.nextId), b, o).value;
      var errs := UserModel.SchemaErrors(NormalizeEmail(d.email), d.password, d.role, d.teacherId);
      && (errs != [] ==> resp == Failure(ErrorHandler.Handle(ErrorHandler.Thrown(ValidationFailed(errs)))))
      && (errs == [] ==> resp.Success?)
    ensures resp.Success? ==>
      var d := SignupDecision(old(db.users), old(db.nextId), b, o).value;
      var id := old(db.nextId);
      && id !in old(db.users) && id in db.users
      && db.users == old(db.users)[id := db.users[id]]
      && db.users[id].email == NormalizeEmail(d.email)
      && db.users[id].role == d.role && db.users[id].teacherId == d.teacherId
      && (forall p :: ComparePassword(db.users[id], p) <==> BcryptKey(p) == BcryptKey(d.password))
      && resp.status == 201 && resp.message == Some("User created successfully.")
      && resp.body == Session(IssueToken(db.users[id]), Presented(db.users, ProfileOf(db.users[id])))
  {
    var decision := SignupDecision(db.users, db.nextId, b, o);
    if decision.Err? {
      return Failure(decision.error);
    }
    var created := Register(db, decision.value, salt);
    if created.Err? {
      ErrorHandler.StoreErrorsAre400(created.error);
      return Failure(ErrorHandler.Handle(ErrorHandler.Thrown(created.error)));
    }
    var u := created.value;
    resp := Success(201, Some("User created successfully."), Session(IssueToken(u), Presented(db.users, ProfileOf(u))));
  }

  // ---------------------------------------------------------------------------
  // POST /login
  // ---------------------------------------------------------------------------

  const BadCredentials: string := "Invalid email or password."

  function LoginFieldErrors(b: LoginBody, o: Oracles): (errs: seq<string>)
    ensures errs == [] <==> o.isEmail(ValueOf(b.email)) && ValueOf(b.password) != ""
  {
    (if o.isEmail(ValueOf(b.email)) then [] else ["Please provide a valid email address"])
    + (if ValueOf(b.password) != "" then [] else ["Password is required"])
  }

  /** The address the login query looks for: the sanitiser's output, then
      the schema's setters, which Mongoose also applies to query values. */
  function LoginEmail(b: LoginBody, o: Oracles): (e: string)
    ensures EmailNormalized(e)
    ensures EmailNormalized(o.normalizeEmail(ValueOf(b.email))) ==> e == o.normalizeEmail(ValueOf(b.email))
  {
    NormalizedIsFixed(o.normalizeEmail(ValueOf(b.email)));
    NormalizeEmail(o.normalizeEmail(ValueOf(b.email)))
  }

  /** `POST /login` behind the throttle. */
  function Login(users: map<Id, User>, nextId: nat, b: LoginBody, o: Oracles): (r: Response<Session>)
    requires KeyedBy(users, UserKey) && IdsBelow(users, nextId)
    ensures LoginFieldErrors(b, o) != [] ==> r == Failure(Refuse(400, Join(LoginFieldErrors(b, o), ", ")))
    ensures r.Failure? && LoginFieldErrors(b, o) == [] ==> r.reply == Refuse(401, BadCredentials)
    ensures r.Success? ==>
      && LoginFieldErrors(b, o) == []
      && r.body.token.userId in users
      && users[r.body.token.userId].email == LoginEmail(b, o)
      && ComparePassword(users[r.body.token.userId], ValueOf(b.password))
      && r.body == Session(IssueToken(users[r.body.token.userId]), Presented(users, ProfileOf(users[r.body.token.userId])))
      && r.status == 200 && r.message == Some("Login successful.")
  {
    var errs := LoginFieldErrors(b, o);
    if errs != [] then Failure(Refuse(400, Join(errs, ", ")))
    else
      match FindUserByEmail(users, nextId, LoginEmail(b, o))
      case None => Failure(Refuse(401, BadCredentials))
      case Some(u) =>
        if !ComparePassword(u, ValueOf(b.password)) then Failure(Refuse(401, BadCredentials))
        else Success(200, Some("Login successful."), Session(IssueToken(u), Presented(users, ProfileOf(u))))
  }

  /** With one account per email, a login succeeds exactly when some stored
      user has the address and accepts the password. */
  lemma LoginSucceedsIff(users: map<Id, User>, nextId: nat, b: LoginBody, o: Oracles)
    requires KeyedBy(users, UserKey) && IdsBelow(users, nextId) && UniqueEmails(users)
    requires LoginFieldErrors(b, o) == []
    ensures Login(users, nextId, b, o).Success? <==>
      exists id :: id in users && users[id].email == LoginEmail(b, o) && ComparePassword(users[id], ValueOf(b.password))
  {
    var found := FindUserByEmail(users, nextId, LoginEmail(b, o));
    if found.Some? {
      forall id | id in users && users[id].email == LoginEmail(b, o)
        ensures users[id] == found.value
      {
        assert users[found.value.id].email == users[id].email;
      }
    }
  }

  /** The account just created logs in with the same email and password, as
      the user the signup returned. */
  lemma LoginAfterSignup(users: map<Id, User>, nextId: nat, s: SignupBody, o: Oracles, u: User)
    requires KeyedBy(users, UserKey) && IdsBelow(users, nextId) && UniqueEmails(users)
    requires u.id in users && users[u.id] == u
    requires SignupFieldErrors(s, o) == []
    requires u.email == NormalizeEmail(o.normalizeEmail(ValueOf(s.email)))
    requires ComparePassword(u, ValueOf(s.password))
    ensures Login(users, nextId, LoginBody(s.email, s.password), o)
         == Success(200, Some("Login successful."), Session(IssueToken(u), Presented(users, ProfileOf(u))))
  {
    var b := LoginBody(s.email, s.password);
    var found := FindUserByEmail(users, nextId, LoginEmail(b, o));
    assert users[u.id].email == LoginEmail(b, o);
    assert found.Some?;
    assert users[found.value.id].email == users[u.id].email;
  }

  /** An unknown address and a wrong password get the same answer. */
  lemma NoAccountProbe(users: map<Id, User>, nextId: nat, b1: LoginBody, b2: LoginBody, o: Oracles)
    requires KeyedBy(users, UserKey) && IdsBelow(users, nextId)
    requires Login(users, nextId, b1, o).Failure? && LoginFieldErrors(b1, o) == []
    requires Login(users, nextId, b2, o).Failure? && LoginFieldErrors(b2, o) == []
    ensures Login(users, nextId, b1, o) == Login(users, nextId, b2, o)
  {
  }

  /** The token a login hands out authenticates as that user, once the
      signed string verifies to what was signed. */
  lemma TokenAuthenticates(users: map<Id, User>, nextId: nat, b: LoginBody, o: Oracles, signed: string)
    requires KeyedBy(users, UserKey) && IdsBelow(users, nextId)
    requires Login(users, nextId, b, o).Success?
    requires o.verifyJwt(signed) == Decoded(Login(users, nextId, b, o).body.token.userId)
    ensures AuthMiddleware.Authenticate(users, Some(AuthMiddleware.BearerPrefix + signed), o)
         == Ok(ProfileOf(users[Login(users, nextId, b, o).body.token.userId]))
  {
    AuthMiddleware.BearerRoundTrip(signed);
  }
}
