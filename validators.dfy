/** The reusable express-validator chains (server/src/middleware/validators.js):
    each chain collects the messages of its failing rules in declaration order,
    and its last step answers 400 with the first of them or passes the request on. */
module Validators {
  import opened Common
  import opened Primitives

  /** The message express-validator uses when a rule has no `withMessage`. */
  const DefaultMessage: string := "Invalid value"

  const PasswordMin: nat := 6

  /** The closing step of every chain: `None` is `next()`, no response sent. */
  function FirstError(errs: seq<string>): (r: Option<Reply>)
    ensures r.None? <==> errs == []
    ensures r.Some? ==> r.value == Refuse(400, errs[0])
  {
    if errs == [] then None else Some(Refuse(400, errs[0]))
  }

  /** `signupValidator`'s rules. The `teacherId` rule runs only when `role`
      equals 'student'; `notEmpty` refuses '' but not white space. */
  function SignupErrors(b: SignupBody, o: Oracles): (errs: seq<string>)
    ensures |errs| <= 4
    ensures errs == [] <==>
      && o.isEmail(ValueOf(b.email))
      && ValidatorLength(ValueOf(b.password)) >= PasswordMin
      && ValueOf(b.role) in RoleValues
      && (ValueOf(b.role) == "student" ==> ValueOf(b.teacherId) != "")
  {
    (if o.isEmail(ValueOf(b.email)) then [] else ["Valid email required"])
    + (if ValidatorLength(ValueOf(b.password)) >= PasswordMin then [] else ["Password min 6 chars"])
    + (if ValueOf(b.role) in RoleValues then [] else ["Role must be student or teacher"])
    + (if ValueOf(b.role) == "student" && ValueOf(b.teacherId) == "" then ["teacherId required for students"] else [])
  }

  function SignupValidator(b: SignupBody, o: Oracles): (r: Option<Reply>)
    ensures r.None? <==> SignupErrors(b, o) == []
    ensures !o.isEmail(ValueOf(b.email)) ==> r == Some(Refuse(400, "Valid email required"))
    ensures o.isEmail(ValueOf(b.email)) && ValidatorLength(ValueOf(b.password)) < PasswordMin ==>
      r == Some(Refuse(400, "Password min 6 chars"))
    ensures o.isEmail(ValueOf(b.email)) && ValidatorLength(ValueOf(b.password)) >= PasswordMin && ValueOf(b.role) !in RoleValues ==>
      r == Some(Refuse(400, "Role must be student or teacher"))
  {
    FirstError(SignupErrors(b, o))
  }

  /** The `teacherId` rule is conditional: for a role other than 'student'
      the chain's answer does not depend on `teacherId` at all. */
  lemma TeacherIdOnlyForStudents(b: SignupBody, o: Oracles, teacherId: Option<string>)
    requires ValueOf(b.role) != "student"
    ensures SignupValidator(b, o) == SignupValidator(b.(teacherId := teacherId), o)
  {
  }

  /** A student without a teacher is refused by the last rule, and only by it
      when the other fields are good. */
  lemma StudentNeedsTeacher(b: SignupBody, o: Oracles)
    requires o.isEmail(ValueOf(b.email)) && ValidatorLength(ValueOf(b.password)) >= PasswordMin
    requires ValueOf(b.role) == "student"
    ensures SignupValidator(b, o).None? <==> ValueOf(b.teacherId) != ""
    ensures ValueOf(b.teacherId) == "" ==> SignupValidator(b, o) == Some(Refuse(400, "teacherId required for students"))
  {
  }

  /** `loginValidator`'s rules: `isEmail()` and `exists()`, both with the
      default message. `exists` refuses only a missing field. */
  function LoginErrors(b: LoginBody, o: Oracles): (errs: seq<string>)
    ensures errs == [] <==> o.isEmail(ValueOf(b.email)) && b.password.Some?
    ensures forall m :: m in errs ==> m == DefaultMessage
  {
    (if o.isEmail(ValueOf(b.email)) then [] else [DefaultMessage])
    + (if b.password.Some? then [] else [DefaultMessage])
  }

  function LoginValidator(b: LoginBody, o: Oracles): (r: Option<Reply>)
    ensures r.None? <==> o.isEmail(ValueOf(b.email)) && b.password.Some?
    ensures r.Some? ==> r.value == Refuse(400, DefaultMessage)
  {
    FirstError(LoginErrors(b, o))
  }

  /** `taskCreateValidator`'s rules. */
  function TaskCreateErrors(b: TaskBody): (errs: seq<string>)
    ensures errs == [] <==> ValueOf(b.userId) != "" && ValueOf(b.title) != ""
  {
    (if ValueOf(b.userId) != "" then [] else ["userId required"])
    + (if ValueOf(b.title) != "" then [] else ["title required"])
  }

  function TaskCreateValidator(b: TaskBody): (r: Option<Reply>)
    ensures r.None? <==> ValueOf(b.userId) != "" && ValueOf(b.title) != ""
    ensures ValueOf(b.userId) == "" ==> r == Some(Refuse(400, "userId required"))
    ensures ValueOf(b.userId) != "" && ValueOf(b.title) == "" ==> r == Some(Refuse(400, "title required"))
  {
    FirstError(TaskCreateErrors(b))
  }
}
