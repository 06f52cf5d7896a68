/** The user schema (server/src/models/User.js): its fields, the setters and
    validators Mongoose runs on them, the password hook and the view of a user
    that leaves the server. */
module UserModel {
  import opened Common
  import opened Primitives

  /** A stored user document. */
  datatype User = User(
    id: Id,
    email: string,
    passwordHash: string,
    role: Role,
    teacherId: Option<Id>,
    createdAt: nat,
    updatedAt: nat)

  /** A user read with `select('-passwordHash')`: every field but the hash. */
  datatype Profile = Profile(
    id: Id,
    email: string,
    role: Role,
    teacherId: Option<Id>,
    createdAt: nat,
    updatedAt: nat)

  function ProfileOf(u: User): Profile
  {
    Profile(u.id, u.email, u.role, u.teacherId, u.createdAt, u.updatedAt)
  }

  /** The `required` function of the `teacherId` path. */
  predicate TeacherIdRequired(role: Role)
  {
    role == Student
  }

  // ---------------------------------------------------------------------------
  // The email path: `lowercase`, `trim` and `match: /^\S+@\S+\.\S+$/`
  // ---------------------------------------------------------------------------

  predicate IsUpper(c: char)
  {
    'A' <= c <= 'Z'
  }

  function ToLower(c: char): char
  {
    if IsUpper(c) then (c as int + 32) as char else c
  }

  function Lower(s: string): (r: string)
    ensures |r| == |s|
    ensures forall i :: 0 <= i < |s| ==> r[i] == ToLower(s[i])
  {
    seq(|s|, i requires 0 <= i < |s| => ToLower(s[i]))
  }

  predicate NoUpper(s: string)
  {
    forall i :: 0 <= i < |s| ==> !IsUpper(s[i])
  }

  /** The value the `email` setters store: lower-cased, then trimmed. */
  function NormalizeEmail(s: string): (r: string)
    ensures IsTrimmed(r) && NoUpper(r)
    ensures |r| <= |s|
  {
    TrimKeepsNoUpper(Lower(s));
    Trim(Lower(s))
  }

  lemma TrimKeepsNoUpper(l: string)
    requires NoUpper(l)
    ensures NoUpper(Trim(l))
  {
    var i := SkipSpace(l, 0);
    var r := Trim(l);
    forall k | 0 <= k < |r| ensures !IsUpper(r[k]) {
      assert r[k] == l[i + k];
    }
  }

  /** The setters keep the text between the surrounding white space and
      lower-case it. */
  lemma NormalizeEmailOf(p: string, t: string, q: string)
    requires Blank(p) && Blank(q) && IsTrimmed(t)
    ensures NormalizeEmail(p + t + q) == Lower(t)
  {
    assert Lower(p + t + q) == Lower(p) + Lower(t) + Lower(q);
    assert Blank(Lower(p)) by {
      forall i | 0 <= i < |p| ensures IsSpace(Lower(p)[i]) {
        assert !IsUpper(p[i]);
      }
    }
    assert Blank(Lower(q)) by {
      forall i | 0 <= i < |q| ensures IsSpace(Lower(q)[i]) {
        assert !IsUpper(q[i]);
      }
    }
    TrimUnique(Lower(p), Lower(t), Lower(q));
  }

  /** An email the setters leave as it is. */
  predicate EmailNormalized(e: string)
  {
    IsTrimmed(e) && NoUpper(e)
  }

  /** The normal form is exactly what the setters leave alone. */
  lemma NormalizedIsFixed(e: string)
    ensures EmailNormalized(e) <==> NormalizeEmail(e) == e
  {
    if EmailNormalized(e) {
      assert Lower(e) == e;
      TrimOfTrimmed(e);
    }
  }

  /** Running the setters again changes nothing: a stored email is its own normal form. */
  lemma NormalizeEmailIdempotent(s: string)
    ensures NormalizeEmail(NormalizeEmail(s)) == NormalizeEmail(s)
  {
    NormalizedIsFixed(NormalizeEmail(s));
  }

  predicate NoSpace(s: string)
  {
    forall k :: 0 <= k < |s| ==> !IsSpace(s[k])
  }

  /** What `/^\S+@\S+\.\S+$/` accepts: a string without white space that is
      a non-empty part, '@', a non-empty part, '.', and a non-empty part. */
  ghost predicate EmailPattern(s: string)
  {
    && NoSpace(s)
    && exists i, j :: 1 <= i && i + 2 <= j && j + 2 <= |s| && s[i] == '@' && s[j] == '.'
  }

  /** The position of the first '@' at or after `from`, or |s| if there is none. */
  function FirstAt(s: string, from: nat): (k: nat)
    requires from <= |s|
    ensures from <= k <= |s|
    ensures k < |s| ==> s[k] == '@'
    ensures forall m :: from <= m < k ==> s[m] != '@'
    decreases |s| - from
  {
    if from == |s| || s[from] == '@' then from else FirstAt(s, from + 1)
  }

  /** The position of the last '.' before `upto`, or -1 if there is none. */
  function LastDotBefore(s: string, upto: nat): (k: int)
    requires upto <= |s|
    ensures -1 <= k < upto
    ensures k >= 0 ==> s[k] == '.'
    ensures forall m :: k < m < upto ==> s[m] != '.'
  {
    if upto == 0 then -1
    else if s[upto - 1] == '.' then upto - 1
    else LastDotBefore(s, upto - 1)
  }

  /** The regular-expression test: the earliest usable '@' and the latest
      usable '.' decide whether any split works. */
  function MatchesEmail(s: string): (b: bool)
    ensures b <==> EmailPattern(s)
  {
    if s == [] || !NoSpace(s) then false
    else
      var i := FirstAt(s, 1);
      var j := LastDotBefore(s, |s| - 1);
      EmailSplit(s, i, j);
      i + 2 <= j
  }

  lemma EmailSplit(s: string, i: nat, j: int)
    requires s != [] && NoSpace(s)
    requires i == FirstAt(s, 1) && j == LastDotBefore(s, |s| - 1)
    ensures i + 2 <= j <==> EmailPattern(s)
  {
    if EmailPattern(s) {
      var i0, j0 :| 1 <= i0 && i0 + 2 <= j0 && j0 + 2 <= |s| && s[i0] == '@' && s[j0] == '.';
      assert i <= i0;
      assert j0 <= j;
    }
  }

  // ---------------------------------------------------------------------------
  // Validation
  // ---------------------------------------------------------------------------

  /** The messages of the schema's validators, one per failing path, in path
      order, for the values the setters have produced. The role path is typed
      by `Role`, so its `enum` and `required` checks cannot fail here. */
  function SchemaErrors(email: string, passwordHash: string, role: Role, teacherId: Option<Id>): (errs: seq<string>)
    ensures errs == [] <==>
      && email != ""
      && EmailPattern(email)
      && passwordHash != ""
      && (TeacherIdRequired(role) ==> teacherId.Some?)
    ensures |errs| <= 3
  {
    (if email == "" then ["Email is required"]
     else if !MatchesEmail(email) then ["Please provide a valid email"]
     else [])
    + (if passwordHash == "" then ["Password is required"] else [])
    + (if TeacherIdRequired(role) && teacherId.None? then ["Path `teacherId` is required."] else [])
  }

  /** A stored user as the schema admits it. */
  predicate SchemaValid(u: User)
  {
    && EmailNormalized(u.email)
    && SchemaErrors(u.email, u.passwordHash, u.role, u.teacherId) == []
  }

  /** `user.comparePassword(candidate)`: a stored hash that accepts one
      candidate accepts exactly the passwords bcrypt cannot tell from it. */
  function ComparePassword(u: User, candidate: string): (b: bool)
    ensures b ==> forall p :: BcryptCompare(p, u.passwordHash) <==> BcryptKey(p) == BcryptKey(candidate)
  {
    CompareRehashes(candidate, u.passwordHash);
    BcryptCompare(candidate, u.passwordHash)
  }

  // ---------------------------------------------------------------------------
  // The user as the server sends it
  // ---------------------------------------------------------------------------

  /** The `teacherId` field of an outgoing user. */
  datatype TeacherField =
    | NoTeacher                                      // the path is unset
    | TeacherRef(id: Id)                             // the raw ObjectId, not populated
    | Populated(teacherId: Id, email: string, role: Role)  // `populate('teacherId', 'email role _id')`
    | Unresolved                                     // populated, but no such user: `null`

  /** A user object after `toObject()` and `delete userObj.passwordHash`. */
  datatype UserView = UserView(
    id: Id,
    email: string,
    role: Role,
    teacher: TeacherField,
    createdAt: nat,
    updatedAt: nat)

  /** The user as signup, login and `/me` return it: the teacher is populated
      for a student that has one, the hash is never part of it. */
  function Presented(users: map<Id, User>, p: Profile): (v: UserView)
    ensures v.id == p.id && v.email == p.email && v.role == p.role
    ensures v.createdAt == p.createdAt && v.updatedAt == p.updatedAt
    ensures (v.teacher.Populated? || v.teacher.Unresolved?) <==> (p.role == Student && p.teacherId.Some?)
    ensures v.teacher.Populated? ==>
      && p.teacherId == Some(v.teacher.teacherId)
      && v.teacher.teacherId in users
      && v.teacher.email == users[v.teacher.teacherId].email
      && v.teacher.role == users[v.teacher.teacherId].role
    ensures v.teacher.NoTeacher? <==> p.teacherId.None?
  {
    var teacher :=
      match p.teacherId
      case None => NoTeacher
      case Some(tid) =>
        if p.role != Student then TeacherRef(tid)
        else if tid in users then Populated(tid, users[tid].email, users[tid].role)
        else Unresolved;
    UserView(p.id, p.email, p.role, teacher, p.createdAt, p.updatedAt)
  }

  // ---------------------------------------------------------------------------
  // The document and its save hook
  // ---------------------------------------------------------------------------

  /** The part of a user document the `pre('save')` hook works on: the
      `passwordHash` path and whether it is modified. */
  class UserDocument {
    var passwordHash: string
    var passwordModified: bool

    /** `new User({ ..., passwordHash: password })`: a new document counts as modified. */
    constructor (password: string)
      ensures passwordHash == password && passwordModified
    {
      passwordHash := password;
      passwordModified := true;
    }

    /** Assignment through Mongoose: the path becomes modified when the value changes. */
    method SetPasswordHash(value: string)
      modifies this
      ensures passwordHash == value
      ensures passwordModified == (old(passwordModified) || value != old(passwordHash))
    {
      passwordModified := passwordModified || value != passwordHash;
      passwordHash := value;
    }

    /** `save()`: the hook hashes the password only when its path is modified;
        a completed save leaves no path modified. */
    method Save(salt: string)
      requires IsSalt(salt)
      modifies this
      ensures passwordHash == if old(passwordModified) then BcryptHash(old(passwordHash), salt) else old(passwordHash)
      ensures !passwordModified
    {
      if passwordModified {
        passwordHash := BcryptHash(passwordHash, salt);
      }
      passwordModified := false;
    }
  }

  /** Saving twice hashes once: the second save finds nothing modified. */
  method SaveTwice(doc: UserDocument, salt1: string, salt2: string)
    requires IsSalt(salt1) && IsSalt(salt2) && doc.passwordModified
    modifies doc
    ensures doc.passwordHash == BcryptHash(old(doc.passwordHash), salt1)
    ensures forall candidate :: BcryptCompare(candidate, doc.passwordHash) <==> BcryptKey(candidate) == BcryptKey(old(doc.passwordHash))
  {
    doc.Save(salt1);
    doc.Save(salt2);
  }

  /** Assigning a saved document the hash it already has marks nothing
      modified, so the next save leaves the hash alone. */
  method SaveAfterSameAssignment(doc: UserDocument, salt: string)
    requires IsSalt(salt) && !doc.passwordModified
    modifies doc
    ensures doc.passwordHash == old(doc.passwordHash) && !doc.passwordModified
  {
    doc.SetPasswordHash(doc.passwordHash);
    doc.Save(salt);
  }
}
