/** The library primitives the server calls: express-validator's checks and
    sanitisers, the ObjectId cast, bcrypt and jsonwebtoken. Their algorithms are
    not part of this model; the checks are parameters (`Oracles`), bcrypt is an
    injective stand-in and a signed token is the payload it carries. */
module Primitives {
  import opened Common

  /** What `jwt.verify(token, JWT_SECRET)` does with a token: it returns the
      decoded payload or throws an error whose `name` the middleware inspects. */
  datatype JwtOutcome =
    | Decoded(userId: Id)
    | JsonWebTokenError
    | TokenExpiredError
    | OtherError            // any other throw, a `NotBeforeError` for one

  /** Library checks and conversions whose algorithms are left uninterpreted. */
  datatype Oracles = Oracles(
    isEmail: string -> bool,          // express-validator `isEmail()`
    normalizeEmail: string -> string, // express-validator `normalizeEmail()`
    isISO8601: string -> bool,        // express-validator `isISO8601()`
    objectId: string -> Option<Id>,   // `isMongoId()` and Mongoose's cast to an ObjectId
    idText: Id -> string,             // `ObjectId.prototype.toString()`
    verifyJwt: string -> JwtOutcome)  // `jwt.verify` with the server's secret

  // ---------------------------------------------------------------------------
  // UTF-8
  // ---------------------------------------------------------------------------

  /** A byte value. */
  predicate IsByte(b: nat)
  {
    b < 256
  }

  /** The UTF-8 encoding of one character, one to four bytes. */
  function Utf8Char(c: char): (bs: seq<nat>)
    ensures 1 <= |bs| <= 4
    ensures forall i :: 0 <= i < |bs| ==> IsByte(bs[i])
    ensures c != '\0' ==> forall i :: 0 <= i < |bs| ==> bs[i] != 0
  {
    var n := c as int;
    var q := n / 64;
    var r := q / 64;
    if n < 0x80 then [n]
    else if n < 0x800 then [0xC0 + q, 0x80 + n % 64]
    else if n < 0x10000 then [0xE0 + r, 0x80 + q % 64, 0x80 + n % 64]
    else [0xF0 + r / 64, 0x80 + r % 64, 0x80 + q % 64, 0x80 + n % 64]
  }

  /** The number of bytes a sequence announces in its leading byte. */
  function Utf8Width(lead: nat): nat
  {
    if lead < 0x80 then 1 else if lead < 0xE0 then 2 else if lead < 0xF0 then 3 else 4
  }

  lemma Utf8CharWidth(c: char)
    ensures Utf8Width(Utf8Char(c)[0]) == |Utf8Char(c)|
  {
  }

  /** Different characters have different encodings. */
  lemma Utf8CharInjective(c: char, d: char)
    requires Utf8Char(c) == Utf8Char(d)
    ensures c == d
  {
    var n, m := c as int, d as int;
    assert n == (n / 64) * 64 + n % 64 && m == (m / 64) * 64 + m % 64;
    assert n / 64 == (n / 64 / 64) * 64 + (n / 64) % 64 && m / 64 == (m / 64 / 64) * 64 + (m / 64) % 64;
    assert n / 64 / 64 == (n / 64 / 64 / 64) * 64 + (n / 64 / 64) % 64;
    assert m / 64 / 64 == (m / 64 / 64 / 64) * 64 + (m / 64 / 64) % 64;
  }

  /** The UTF-8 encoding of a string: its characters' encodings in order. */
  function Utf8Encode(s: string): (bs: seq<nat>)
    ensures |s| <= |bs| <= 4 * |s|
    ensures forall i :: 0 <= i < |bs| ==> IsByte(bs[i])
    ensures (forall k :: 0 <= k < |s| ==> s[k] != '\0') ==> forall i :: 0 <= i < |bs| ==> bs[i] != 0
  {
    if s == [] then [] else Utf8Char(s[0]) + Utf8Encode(s[1..])
  }

  /** The encoding can be read back: different strings encode differently. */
  lemma {:induction false} Utf8Injective(s: string, t: string)
    requires Utf8Encode(s) == Utf8Encode(t)
    ensures s == t
  {
    if s != [] && t != [] {
      var a, b := Utf8Char(s[0]), Utf8Char(t[0]);
      var e := Utf8Encode(s);
      Utf8CharWidth(s[0]);
      Utf8CharWidth(t[0]);
      assert a[0] == e[0] == b[0];
      assert a == e[..|a|] == b;
      Utf8CharInjective(s[0], t[0]);
      assert Utf8Encode(s[1..]) == e[|a|..] == Utf8Encode(t[1..]);
      Utf8Injective(s[1..], t[1..]);
      assert s == [s[0]] + s[1..] && t == [t[0]] + t[1..];
    }
  }

  // ---------------------------------------------------------------------------
  // bcrypt
  // ---------------------------------------------------------------------------

  /** `bcrypt.genSalt(12)` yields salts of this form: version, cost, 22 salt characters. */
  const BcryptCost: nat := 12
  const BcryptPrefix: string := "$2a$12$"
  const SaltLength: nat := 22

  /** The key schedule of bcrypt reads this many key bytes. */
  const BcryptKeyBytes: nat := 72

  const BcryptHashLength: nat := |BcryptPrefix| + SaltLength + BcryptKeyBytes

  predicate IsSalt(salt: string)
  {
    |salt| == SaltLength
  }

  /** The key bcryptjs derives from a password for version "2a": the UTF-8
      bytes with a terminating zero, repeated, of which the first 72 are used.
      A password of 72 bytes or more is cut to its first 72 bytes. */
  function BcryptKey(password: string): (k: seq<nat>)
    ensures |k| == BcryptKeyBytes
    ensures forall i :: 0 <= i < |k| ==> IsByte(k[i])
  {
    var ext := Utf8Encode(password) + [0];
    seq(BcryptKeyBytes, i requires 0 <= i < BcryptKeyBytes => ext[i % |ext|])
  }

  /** The key bytes written out as characters. */
  function KeyText(k: seq<nat>): (t: string)
    requires forall i :: 0 <= i < |k| ==> IsByte(k[i])
    ensures |t| == |k|
    ensures forall i :: 0 <= i < |k| ==> t[i] as int == k[i]
  {
    if k == [] then []
    else
      assert IsByte(k[0]);
      [k[0] as char] + KeyText(k[1..])
  }

  /** `bcrypt.hash(password, salt)`. The digest part is a stand-in for the
      Blowfish output: it is the key itself, which keeps what the server relies
      on, that `BcryptCompare` accepts exactly the passwords with the same key. */
  function BcryptHash(password: string, salt: string): (h: string)
    requires IsSalt(salt)
    ensures |h| == BcryptHashLength
    ensures forall candidate :: BcryptCompare(candidate, h) <==> BcryptKey(candidate) == BcryptKey(password)
  {
    var h := BcryptPrefix + salt + KeyText(BcryptKey(password));
    assert h[..|BcryptPrefix|] == BcryptPrefix;
    assert h[|BcryptPrefix| + SaltLength..] == KeyText(BcryptKey(password));
    forall candidate | KeyText(BcryptKey(candidate)) == KeyText(BcryptKey(password))
      ensures BcryptKey(candidate) == BcryptKey(password)
    {
      var a, b := BcryptKey(candidate), BcryptKey(password);
      assert forall i :: 0 <= i < |a| ==> a[i] == KeyText(a)[i] as int == KeyText(b)[i] as int == b[i];
    }
    h
  }

  /** `bcrypt.compare(candidate, hash)`: only a hash of the right form accepts anything. */
  function BcryptCompare(candidate: string, hash: string): (b: bool)
    ensures b ==> |hash| == BcryptHashLength && hash[..|BcryptPrefix|] == BcryptPrefix
  {
    && |hash| == BcryptHashLength
    && hash[..|BcryptPrefix|] == BcryptPrefix
    && hash[|BcryptPrefix| + SaltLength..] == KeyText(BcryptKey(candidate))
  }

  /** `compare` re-hashes the candidate with the salt the hash carries. */
  lemma CompareRehashes(candidate: string, hash: string)
    ensures BcryptCompare(candidate, hash) <==>
      |hash| == BcryptHashLength && hash == BcryptHash(candidate, hash[|BcryptPrefix|..|BcryptPrefix| + SaltLength])
  {
    if |hash| == BcryptHashLength {
      var salt := hash[|BcryptPrefix|..|BcryptPrefix| + SaltLength];
      var h := BcryptHash(candidate, salt);
      assert h[..|BcryptPrefix|] == BcryptPrefix;
      assert h[|BcryptPrefix|..|BcryptPrefix| + SaltLength] == salt;
      assert h[|BcryptPrefix| + SaltLength..] == KeyText(BcryptKey(candidate));
      if BcryptCompare(candidate, hash) {
        assert hash == hash[..|BcryptPrefix|] + hash[|BcryptPrefix|..|BcryptPrefix| + SaltLength]
                       + hash[|BcryptPrefix| + SaltLength..];
        assert h == h[..|BcryptPrefix|] + h[|BcryptPrefix|..|BcryptPrefix| + SaltLength]
                    + h[|BcryptPrefix| + SaltLength..];
      }
    }
  }

  /** A string without the NUL character. */
  predicate NoNul(s: string)
  {
    forall k :: 0 <= k < |s| ==> s[k] != '\0'
  }

  /** Passwords shorter than 72 bytes and free of NUL characters are told
      apart: for them `compare` accepts exactly the password that was hashed. */
  lemma ShortPasswordsExact(p: string, q: string)
    requires NoNul(p) && NoNul(q)
    requires |Utf8Encode(p)| < BcryptKeyBytes && |Utf8Encode(q)| < BcryptKeyBytes
    requires BcryptKey(p) == BcryptKey(q)
    ensures p == q
  {
    var ep, eq := Utf8Encode(p), Utf8Encode(q);
    var k := BcryptKey(p);
    if |ep| < |eq| {
      ShorterKeyDiffers(p, q);
    } else if |eq| < |ep| {
      ShorterKeyDiffers(q, p);
    }
    forall i | 0 <= i < |ep| ensures ep[i] == eq[i] {
      KeyByteAt(p, i);
      KeyByteAt(q, i);
    }
    assert ep == eq;
    Utf8Injective(p, q);
  }

  /** The key of a short password has its terminating zero where a longer
      NUL-free password still has a byte of its own. */
  lemma ShorterKeyDiffers(p: string, q: string)
    requires NoNul(q)
    requires |Utf8Encode(p)| < |Utf8Encode(q)| && |Utf8Encode(p)| < BcryptKeyBytes
    ensures BcryptKey(p) != BcryptKey(q)
  {
    var ep, eq := Utf8Encode(p), Utf8Encode(q);
    var i := |ep|;
    KeyByteAt(p, i);
    KeyByteAt(q, i);
    assert BcryptKey(p)[i] == (ep + [0])[i] == 0;
    assert BcryptKey(q)[i] == (eq + [0])[i] == eq[i] != 0;
  }

  /** Within the encoding and its terminator the key is the encoding itself. */
  lemma KeyByteAt(p: string, i: nat)
    requires i <= |Utf8Encode(p)| && i < BcryptKeyBytes
    ensures BcryptKey(p)[i] == (Utf8Encode(p) + [0])[i]
  {
    var ext := Utf8Encode(p) + [0];
    ModBelow(i, |ext|);
  }

  lemma ModBelow(i: nat, n: nat)
    requires i < n
    ensures i % n == i
  {
  }

  /** Passwords that agree on their first 72 bytes are the same to bcrypt:
      what follows is never read. */
  lemma LongPasswordsTruncated(p: string, q: string)
    requires |Utf8Encode(p)| >= BcryptKeyBytes && |Utf8Encode(q)| >= BcryptKeyBytes
    requires Utf8Encode(p)[..BcryptKeyBytes] == Utf8Encode(q)[..BcryptKeyBytes]
    ensures BcryptKey(p) == BcryptKey(q)
  {
    var ep, eq := Utf8Encode(p), Utf8Encode(q);
    forall i | 0 <= i < BcryptKeyBytes ensures BcryptKey(p)[i] == BcryptKey(q)[i] {
      KeyByteAt(p, i);
      KeyByteAt(q, i);
      assert ep[i] == ep[..BcryptKeyBytes][i] == eq[..BcryptKeyBytes][i] == eq[i];
    }
  }

  // ---------------------------------------------------------------------------
  // jsonwebtoken
  // ---------------------------------------------------------------------------

  /** `expiresIn: '7d'`, in seconds. */
  const TokenLifetime: nat := 7 * 24 * 60 * 60

  /** A token signed with `jwt.sign({ userId, role }, JWT_SECRET, { expiresIn })`,
      represented by what it carries. */
  datatype Token = Token(userId: Id, role: Role, expiresIn: nat)
}
