/** Values shared by every part of the task-tracker server model: identifiers,
    the two enumerations, the JavaScript string operations the server relies
    on, the request bodies and the JSON envelope of a response. */
module Common {

  datatype Option<T> = None | Some(value: T)

  datatype Result<T, E> = Ok(value: T) | Err(error: E)

  /** A MongoDB ObjectId. The store hands them out in increasing order. */
  type Id = nat

  datatype Role = Student | Teacher

  datatype Progress = NotStarted | InProgress | Completed

  /** The string a role is stored and sent as. */
  function RoleName(r: Role): string
  {
    match r
    case Student => "student"
    case Teacher => "teacher"
  }

  /** `isIn(['student', 'teacher'])`, read as the enum it names. */
  function ParseRole(s: string): (r: Option<Role>)
    ensures r.Some? <==> s in RoleValues
    ensures r.Some? ==> RoleName(r.value) == s
  {
    if s == "student" then Some(Student)
    else if s == "teacher" then Some(Teacher)
    else None
  }

  lemma RoleNameParses(r: Role)
    ensures ParseRole(RoleName(r)) == Some(r)
  {
  }

  const RoleValues: seq<string> := ["student", "teacher"]

  const ProgressValues: seq<string> := ["not-started", "in-progress", "completed"]

  /** The string a progress value is stored and sent as. */
  function ProgressName(p: Progress): string
  {
    match p
    case NotStarted => "not-started"
    case InProgress => "in-progress"
    case Completed => "completed"
  }

  /** `isIn(['not-started', 'in-progress', 'completed'])`, read as the enum it names. */
  function ParseProgress(s: string): (r: Option<Progress>)
    ensures r.Some? <==> s in ProgressValues
    ensures r.Some? ==> ProgressName(r.value) == s
  {
    if s == "not-started" then Some(NotStarted)
    else if s == "in-progress" then Some(InProgress)
    else if s == "completed" then Some(Completed)
    else None
  }

  lemma ProgressNameParses(p: Progress)
    ensures ParseProgress(ProgressName(p)) == Some(p)
  {
  }

  /** JavaScript truthiness of an optional string: `undefined` and `''` are falsy. */
  predicate Truthy(s: Option<string>)
  {
    s.Some? && s.value != ""
  }

  // ---------------------------------------------------------------------------
  // Strings
  // ---------------------------------------------------------------------------

  /** The characters JavaScript's `trim` and the regular-expression class `\s`
      treat as white space: WhiteSpace and LineTerminator of ECMAScript. */
  predicate IsSpace(c: char)
  {
    || c == '\t' || c == '\n' || c == '\U{000B}' || c == '\U{000C}' || c == '\r'
    || c == ' ' || c == '\U{00A0}' || c == '\U{1680}'
    || ('\U{2000}' <= c <= '\U{200A}')
    || c == '\U{2028}' || c == '\U{2029}' || c == '\U{202F}' || c == '\U{205F}'
    || c == '\U{3000}' || c == '\U{FEFF}'
  }

  predicate Blank(s: string)
  {
    forall i :: 0 <= i < |s| ==> IsSpace(s[i])
  }

  /** A string that `trim` leaves alone: it neither starts nor ends with white space. */
  predicate IsTrimmed(s: string)
  {
    s == [] || (!IsSpace(s[0]) && !IsSpace(s[|s| - 1]))
  }

  /** The index of the first character at or after `from` that is not white
      space, or |s| if there is none. */
  function SkipSpace(s: string, from: nat): (k: nat)
    requires from <= |s|
    ensures from <= k <= |s|
    ensures forall m :: from <= m < k ==> IsSpace(s[m])
    ensures k < |s| ==> !IsSpace(s[k])
    decreases |s| - from
  {
    if from == |s| || !IsSpace(s[from]) then from else SkipSpace(s, from + 1)
  }

  /** The index, not below `lo`, where the white space that ends `s[..upto]` begins. */
  function SkipSpaceBack(s: string, lo: nat, upto: nat): (k: nat)
    requires lo <= upto <= |s|
    ensures lo <= k <= upto
    ensures forall m :: k <= m < upto ==> IsSpace(s[m])
    ensures k > lo ==> !IsSpace(s[k - 1])
    decreases upto
  {
    if upto == lo || !IsSpace(s[upto - 1]) then upto else SkipSpaceBack(s, lo, upto - 1)
  }

  /** `String.prototype.trim`: the middle of `s` between its leading and
      trailing white space. */
  function Trim(s: string): (r: string)
    ensures IsTrimmed(r)
    ensures |r| <= |s|
    ensures r == [] <==> Blank(s)
  {
    var a := SkipSpace(s, 0);
    var b := SkipSpaceBack(s, a, |s|);
    assert a < b ==> !Blank(s) by {
      if a < b { assert !IsSpace(s[a]); }
    }
    s[a..b]
  }

  /** `trim` removes exactly the white space around the text: a trimmed
      string between two blank ones is what `trim` gives back. */
  lemma TrimUnique(p: string, t: string, q: string)
    requires Blank(p) && Blank(q) && IsTrimmed(t)
    ensures Trim(p + t + q) == t
  {
    var s := p + t + q;
    if t == [] {
      assert Blank(s) by {
        forall k | 0 <= k < |s| ensures IsSpace(s[k]) {
          if k < |p| { assert s[k] == p[k]; } else { assert s[k] == q[k - |p|]; }
        }
      }
    } else {
      var a := SkipSpace(s, 0);
      assert s[|p|] == t[0];
      assert a == |p|;
      var e := |p| + |t|;
      var b := SkipSpaceBack(s, a, |s|);
      assert s[e - 1] == t[|t| - 1];
      assert b == e;
      assert s[a..b] == t;
    }
  }

  lemma TrimOfTrimmed(s: string)
    requires IsTrimmed(s)
    ensures Trim(s) == s
  {
  }

  /** Trimming twice is trimming once: the sanitised value stays put when the
      schema's own `trim` setter runs on it again. */
  lemma TrimIdempotent(s: string)
    ensures Trim(Trim(s)) == Trim(s)
  {
    TrimOfTrimmed(Trim(s));
  }

  /** `String.prototype.length`: UTF-16 code units, two for a character
      outside the Basic Multilingual Plane. */
  function Utf16Length(s: string): (n: nat)
    ensures |s| <= n <= 2 * |s|
    ensures n == |s| <==> forall i :: 0 <= i < |s| ==> InBmp(s[i])
  {
    if s == [] then 0 else (if InBmp(s[0]) then 1 else 2) + Utf16Length(s[1..])
  }

  predicate InBmp(c: char)
  {
    c as int <= 0xFFFF
  }

  /** The variation selectors U+FE0E and U+FE0F. */
  predicate IsVariationSelector(c: char)
  {
    c == '\U{FE0E}' || c == '\U{FE0F}'
  }

  /** The length express-validator's `isLength` compares: code points, less
      one for every variation selector. */
  function ValidatorLength(s: string): (n: nat)
    ensures n <= |s|
    ensures n == |s| <==> forall i :: 0 <= i < |s| ==> !IsVariationSelector(s[i])
  {
    if s == [] then 0 else (if IsVariationSelector(s[0]) then 0 else 1) + ValidatorLength(s[1..])
  }

  /** `isLength` never counts more than `String.prototype.length`, and the two
      agree exactly on text of the Basic Multilingual Plane without
      variation selectors. */
  lemma {:induction false} ValidatorLengthAgrees(s: string)
    ensures ValidatorLength(s) <= Utf16Length(s)
    ensures ValidatorLength(s) == Utf16Length(s) <==>
      forall i :: 0 <= i < |s| ==> InBmp(s[i]) && !IsVariationSelector(s[i])
  {
    if s != [] {
      ValidatorLengthAgrees(s[1..]);
      if ValidatorLength(s) == Utf16Length(s) {
        forall i | 0 <= i < |s| ensures InBmp(s[i]) && !IsVariationSelector(s[i]) {
          if i > 0 { assert s[i] == s[1..][i - 1]; }
        }
      } else {
        assert exists i :: 0 <= i < |s| && !(InBmp(s[i]) && !IsVariationSelector(s[i])) by {
          if InBmp(s[0]) && !IsVariationSelector(s[0]) {
            var k :| 0 <= k < |s[1..]| && !(InBmp(s[1..][k]) && !IsVariationSelector(s[1..][k]));
            assert s[k + 1] == s[1..][k];
          }
        }
      }
    }
  }

  /** `Array.prototype.join`. */
  function Join(parts: seq<string>, sep: string): (r: string)
    ensures parts == [] ==> r == ""
    ensures parts != [] ==> |parts[0]| <= |r| && r[..|parts[0]|] == parts[0]
    ensures |parts| == 1 ==> r == parts[0]
  {
    if parts == [] then ""
    else if |parts| == 1 then parts[0]
    else parts[0] + sep + Join(parts[1..], sep)
  }

  /** The elements of `s` from last to first. */
  function Reverse<T>(s: seq<T>): (r: seq<T>)
    ensures |r| == |s|
    ensures forall i :: 0 <= i < |s| ==> r[i] == s[|s| - 1 - i]
  {
    if s == [] then [] else Reverse(s[1..]) + [s[0]]
  }

  // ---------------------------------------------------------------------------
  // Responses
  // ---------------------------------------------------------------------------

  /** The JSON envelope `{ success, message }` with its HTTP status. */
  datatype Reply = Reply(status: nat, success: bool, message: string)

  /** `res.status(status).json({ success: false, message })`. */
  function Refuse(status: nat, message: string): Reply
  {
    Reply(status, false, message)
  }

  /** What a route sends: a refusal, or `{ success: true, message?, ...body }`
      with its status. The list routes send no message. */
  datatype Response<T> =
    | Failure(reply: Reply)
    | Success(status: nat, message: Option<string>, body: T)

  // ---------------------------------------------------------------------------
  // Requests
  // ---------------------------------------------------------------------------

  /** The JSON body fields the routes read; `None` is a field that is absent. */
  datatype SignupBody = SignupBody(email: Option<string>, password: Option<string>,
                                   role: Option<string>, teacherId: Option<string>)

  datatype LoginBody = LoginBody(email: Option<string>, password: Option<string>)

  datatype TaskBody = TaskBody(userId: Option<string>, title: Option<string>, description: Option<string>,
                               dueDate: Option<string>, progress: Option<string>)

  /** The value a validator chain sees: a missing field reads as ''. */
  function ValueOf(v: Option<string>): string
  {
    if v.Some? then v.value else ""
  }
}
