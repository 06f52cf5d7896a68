/** The user routes of server/src/routes/users.js: the public teacher list
    for the signup form and `GET /me`. */
module UserRoutes {
  import opened Common
  import opened Primitives
  import opened UserModel
  import opened Database
  import AuthMiddleware

  // ---------------------------------------------------------------------------
  // Ordering of strings
  // ---------------------------------------------------------------------------

  /** MongoDB's default order on strings: code point by code point, a prefix first. */
  predicate StrLe(a: string, b: string)
  {
    a == [] || (b != [] && (a[0] < b[0] || (a[0] == b[0] && StrLe(a[1..], b[1..]))))
  }

  lemma {:induction false} StrLeTotal(a: string, b: string)
    ensures StrLe(a, b) || StrLe(b, a)
  {
    if a != [] && b != [] && a[0] == b[0] {
      StrLeTotal(a[1..], b[1..]);
    }
  }

  lemma {:induction false} StrLeTrans(a: string, b: string, c: string)
    requires StrLe(a, b) && StrLe(b, c)
    ensures StrLe(a, c)
  {
    if a != [] && b != [] && c != [] && a[0] == b[0] && b[0] == c[0] {
      StrLeTrans(a[1..], b[1..], c[1..]);
    }
  }

  lemma {:induction false} StrLeAntisymmetric(a: string, b: string)
    requires StrLe(a, b) && StrLe(b, a)
    ensures a == b
  {
    if a != [] && b != [] {
      StrLeAntisymmetric(a[1..], b[1..]);
      assert a == [a[0]] + a[1..] && b == [b[0]] + b[1..];
    }
  }

  // ---------------------------------------------------------------------------
  // GET /teachers
  // ---------------------------------------------------------------------------

  /** A teacher as the list shows it: `select('_id email')`. */
  datatype TeacherEntry = TeacherEntry(id: Id, email: string)

  predicate SortedByEmail(s: seq<TeacherEntry>)
  {
    forall i, j :: 0 <= i < j < |s| ==> StrLe(s[i].email, s[j].email)
  }

  function InsertByEmail(e: TeacherEntry, s: seq<TeacherEntry>): (r: seq<TeacherEntry>)
    requires SortedByEmail(s)
    ensures multiset(r) == multiset(s) + multiset{e}
    ensures SortedByEmail(r)
  {
    if s == [] then [e]
    else if StrLe(e.email, s[0].email) then
      InsertFront(e, s);
      [e] + s
    else
      var rest := InsertByEmail(e, s[1..]);
      InsertBehind(e, s, rest);
      assert s == [s[0]] + s[1..];
      [s[0]] + rest
  }

  lemma InsertFront(e: TeacherEntry, s: seq<TeacherEntry>)
    requires SortedByEmail(s) && s != [] && StrLe(e.email, s[0].email)
    ensures SortedByEmail([e] + s)
  {
    var r := [e] + s;
    forall i, j | 0 <= i < j < |r| ensures StrLe(r[i].email, r[j].email) {
      if i == 0 && j > 1 {
        StrLeTrans(e.email, s[0].email, s[j - 1].email);
      }
    }
  }

  lemma InsertBehind(e: TeacherEntry, s: seq<TeacherEntry>, rest: seq<TeacherEntry>)
    requires SortedByEmail(s) && s != [] && !StrLe(e.email, s[0].email)
    requires multiset(rest) == multiset(s[1..]) + multiset{e} && SortedByEmail(rest)
    ensures SortedByEmail([s[0]] + rest)
  {
    StrLeTotal(e.email, s[0].email);
    var r := [s[0]] + rest;
    forall i, j | 0 <= i < j < |r| ensures StrLe(r[i].email, r[j].email) {
      if i == 0 {
        var x := r[j];
        assert x in multiset(rest);
        if x != e {
          assert x in multiset(s[1..]);
          var k :| 0 <= k < |s[1..]| && s[1..][k] == x;
          assert s[k + 1] == x;
        }
      }
    }
  }

  /** Insertion sort by email, ascending: `sort({ email: 1 })`. */
  function SortByEmail(s: seq<TeacherEntry>): (r: seq<TeacherEntry>)
    ensures multiset(r) == multiset(s)
    ensures SortedByEmail(r)
  {
    if s == [] then []
    else
      assert s == [s[0]] + s[1..];
      InsertByEmail(s[0], SortByEmail(s[1..]))
  }

  function EntryOf(u: User): TeacherEntry
  {
    TeacherEntry(u.id, u.email)
  }

  function EntriesOf(us: seq<User>): (r: seq<TeacherEntry>)
    ensures |r| == |us|
    ensures forall i :: 0 <= i < |us| ==> r[i] == EntryOf(us[i])
  {
    if us == [] then [] else [EntryOf(us[0])] + EntriesOf(us[1..])
  }

  /** `User.find({ role: 'teacher' }).select('_id email').sort({ email: 1 })`. */
  function Teachers(users: map<Id, User>, nextId: nat): (r: seq<TeacherEntry>)
    requires KeyedBy(users, UserKey)
    ensures SortedByEmail(r)
  {
    SortByEmail(EntriesOf(Scan(users, UserKey, nextId, (u: User) => u.role == Teacher)))
  }

  /** `GET /teachers`: no authentication; the list, in a 200 response. */
  function GetTeachers(users: map<Id, User>, nextId: nat): (r: Response<seq<TeacherEntry>>)
    requires KeyedBy(users, UserKey)
    ensures r.Success? && r.status == 200 && r.message.None?
    ensures SortedByEmail(r.body)
    ensures IdsBelow(users, nextId) ==> forall e :: e in r.body <==>
      e.id in users && users[e.id].role == Teacher && e.email == users[e.id].email
  {
    var list := Teachers(users, nextId);
    assert IdsBelow(users, nextId) ==> forall e :: e in list <==>
      e.id in users && users[e.id].role == Teacher && e.email == users[e.id].email
    by {
      if IdsBelow(users, nextId) {
        TeachersListing(users, nextId);
      }
    }
    Success(200, None, list)
  }

  /** The entries before sorting: one per stored teacher. */
  function TeacherScan(users: map<Id, User>, nextId: nat): (r: seq<TeacherEntry>)
    requires KeyedBy(users, UserKey)
  {
    EntriesOf(Scan(users, UserKey, nextId, (u: User) => u.role == Teacher))
  }

  /** The list holds exactly the stored teachers, as id and email. */
  lemma TeachersListing(users: map<Id, User>, nextId: nat)
    requires KeyedBy(users, UserKey) && IdsBelow(users, nextId)
    ensures forall e :: e in Teachers(users, nextId) <==>
      e.id in users && users[e.id].role == Teacher && e.email == users[e.id].email
  {
    forall e ensures e in Teachers(users, nextId) <==>
      e.id in users && users[e.id].role == Teacher && e.email == users[e.id].email
    {
      TeacherListed(users, nextId, e);
    }
  }

  lemma TeacherListed(users: map<Id, User>, nextId: nat, e: TeacherEntry)
    requires KeyedBy(users, UserKey) && IdsBelow(users, nextId)
    ensures e in Teachers(users, nextId) <==>
      e.id in users && users[e.id].role == Teacher && e.email == users[e.id].email
  {
    var entries := TeacherScan(users, nextId);
    assert multiset(Teachers(users, nextId)) == multiset(entries);
    assert e in Teachers(users, nextId) <==> e in multiset(entries);
    TeacherScanned(users, nextId, e);
  }

  lemma TeacherScanned(users: map<Id, User>, nextId: nat, e: TeacherEntry)
    requires KeyedBy(users, UserKey) && IdsBelow(users, nextId)
    ensures e in TeacherScan(users, nextId) <==>
      e.id in users && users[e.id].role == Teacher && e.email == users[e.id].email
  {
    var found := Scan(users, UserKey, nextId, (u: User) => u.role == Teacher);
    var entries := TeacherScan(users, nextId);
    if e in entries {
      var k :| 0 <= k < |entries| && entries[k] == e;
      assert found[k] in found;
    }
    if e.id in users && users[e.id].role == Teacher && e.email == users[e.id].email {
      assert UserKey(users[e.id]) == e.id;
      assert users[e.id] in found;
      var k :| 0 <= k < |found| && found[k] == users[e.id];
      assert entries[k] == e;
    }
  }

  /** Each teacher is listed once, and with unique emails the list is
      strictly ascending. */
  lemma TeachersStrictlyAscending(users: map<Id, User>, nextId: nat)
    requires KeyedBy(users, UserKey) && IdsBelow(users, nextId) && UniqueEmails(users)
    ensures forall e :: multiset(Teachers(users, nextId))[e] <= 1
    ensures forall i, j :: 0 <= i < j < |Teachers(users, nextId)| ==>
      StrLe(Teachers(users, nextId)[i].email, Teachers(users, nextId)[j].email)
      && Teachers(users, nextId)[i].email != Teachers(users, nextId)[j].email
  {
    var found := Scan(users, UserKey, nextId, (u: User) => u.role == Teacher);
    var entries := TeacherScan(users, nextId);
    var r := Teachers(users, nextId);
    assert multiset(r) == multiset(entries);
    EntriesDistinct(found, entries);
    forall e ensures multiset(r)[e] <= 1 {
      DistinctCount(entries, e);
    }
    TeachersListing(users, nextId);
    forall i, j | 0 <= i < j < |r| ensures r[i].email != r[j].email {
      if r[i].email == r[j].email {
        assert r[i] in r && r[j] in r;
        assert users[r[i].id].email == users[r[j].id].email;
        TwiceCounted(r, i, j);
      }
    }
  }

  /** The scan has strictly increasing ids, so its entries are pairwise distinct. */
  lemma EntriesDistinct(found: seq<User>, entries: seq<TeacherEntry>)
    requires forall i, j :: 0 <= i < j < |found| ==> found[i].id < found[j].id
    requires |entries| == |found| && forall i :: 0 <= i < |found| ==> entries[i] == EntryOf(found[i])
    ensures forall i, j :: 0 <= i < j < |entries| ==> entries[i] != entries[j]
  {
  }

  lemma {:induction false} DistinctCount(s: seq<TeacherEntry>, e: TeacherEntry)
    requires forall i, j :: 0 <= i < j < |s| ==> s[i] != s[j]
    ensures multiset(s)[e] <= 1
  {
    if s != [] {
      DistinctCount(s[1..], e);
      assert s == [s[0]] + s[1..];
      if s[0] == e {
        assert e !in s[1..];
      }
    }
  }

  lemma TwiceCounted(s: seq<TeacherEntry>, i: nat, j: nat)
    requires 0 <= i < j < |s| && s[i] == s[j]
    ensures multiset(s)[s[i]] >= 2
  {
    assert s == s[..j] + s[j..];
    assert s[i] in s[..j];
    assert s[j] in s[j..];
  }

  // ---------------------------------------------------------------------------
  // GET /me
  // ---------------------------------------------------------------------------

  /** `GET /me` behind `authenticate`: the caller, without the hash, with
      the teacher populated for a student. */
  function Me(users: map<Id, User>, header: Option<string>, o: Oracles): (r: Response<UserView>)
    requires KeyedBy(users, UserKey)
    ensures r.Failure? <==> AuthMiddleware.Authenticate(users, header, o).Err?
    ensures r.Failure? ==> r.reply == AuthMiddleware.Authenticate(users, header, o).error
    ensures r.Success? ==>
      && r.status == 200 && r.message.None?
      && r.body == Presented(users, AuthMiddleware.Authenticate(users, header, o).value)
      && r.body.id in users && r.body.email == users[r.body.id].email
  {
    match AuthMiddleware.Authenticate(users, header, o)
    case Err(reply) => Failure(reply)
    case Ok(caller) => Success(200, None, Presented(users, caller))
  }

  /** Under the routes' links, a student's `/me` names its teacher, which is
      a stored teacher; a teacher's `/me` names none. */
  lemma MeShowsTeacher(users: map<Id, User>, header: Option<string>, o: Oracles)
    requires KeyedBy(users, UserKey) && TeacherLinks(users)
    requires Me(users, header, o).Success?
    ensures var v := Me(users, header, o).body;
      && (v.role == Student ==>
            && v.teacher.Populated? && v.teacher.role == Teacher
            && v.teacher.teacherId in users && users[v.teacher.teacherId].role == Teacher)
      && (v.role == Teacher ==> v.teacher.NoTeacher?)
  {
    var v := Me(users, header, o).body;
    assert users[v.id].role == v.role;
  }
}
