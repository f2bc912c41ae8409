/** The records of the three server-side collections (users, user_goals,
    user_sessions), the password-hash and token stand-ins, and the bulk
    session deactivation that password change and account deletion share. */
module Store {
  import opened Opt

  const SecondMs: nat := 1000
  /** 24 hours in milliseconds: the default session lifetime. */
  const DayMs: nat := 24 * 60 * 60 * SecondMs
  /** 30 days in milliseconds: the "remember me" session lifetime. */
  const ThirtyDaysMs: nat := 30 * DayMs

  type UserId = nat

  /** A bcrypt digest, kept abstract: the password it was made from and the
      fresh salt of the call that made it. */
  datatype Hash = Hash(secret: string, salt: nat)

  type Byte = b: int | 0 <= b < 256

  /** bcrypt's key schedule takes 72 bytes of key. */
  const KeyBytes: nat := 72

  /** The UTF-8 encoding of one character, which bcryptjs hashes. */
  function Utf8Char(c: char): (bs: seq<Byte>)
    ensures 1 <= |bs| <= 4
    ensures c != 0 as char ==> forall i :: 0 <= i < |bs| ==> bs[i] != 0
  {
    var v := c as int;
    if v < 0x80 then [v]
    else if v < 0x800 then [0xC0 + v / 0x40, 0x80 + v % 0x40]
    else if v < 0x10000 then [0xE0 + v / 0x1000, 0x80 + (v / 0x40) % 0x40, 0x80 + v % 0x40]
    else [0xF0 + v / 0x40000, 0x80 + (v / 0x1000) % 0x40, 0x80 + (v / 0x40) % 0x40, 0x80 + v % 0x40]
  }

  /** The UTF-8 encoding of a string: every character takes at least one byte. */
  function Utf8(s: string): (bs: seq<Byte>)
    ensures |bs| >= |s|
  {
    if s == [] then [] else Utf8Char(s[0]) + Utf8(s[1..])
  }

  /** Only the NUL character encodes to a zero byte. */
  lemma {:induction false} Utf8NoZero(s: string)
    requires forall k :: 0 <= k < |s| ==> s[k] != 0 as char
    ensures forall i :: 0 <= i < |Utf8(s)| ==> Utf8(s)[i] != 0
  {
    if s != [] {
      Utf8NoZero(s[1..]);
      var head, tail := Utf8Char(s[0]), Utf8(s[1..]);
      assert Utf8(s) == head + tail;
      forall i | 0 <= i < |Utf8(s)| ensures Utf8(s)[i] != 0 {
        if i >= |head| {
          assert Utf8(s)[i] == tail[i - |head|];
        }
      }
    }
  }

  lemma {:induction false} Utf8Append(a: string, b: string)
    ensures Utf8(a + b) == Utf8(a) + Utf8(b)
  {
    if a == [] {
      assert a + b == b;
    } else {
      assert (a + b)[1..] == a[1..] + b;
      Utf8Append(a[1..], b);
    }
  }

  /** The key bcryptjs feeds the Blowfish key schedule: the password's bytes
      and a terminating zero byte, repeated cyclically to fill 72 bytes. */
  function BcryptKey(password: string): (key: seq<Byte>)
    ensures |key| == KeyBytes
  {
    Cycle(Utf8(password) + [0], KeyBytes)
  }

  /** The first `n` bytes of `bs` repeated without end. */
  function Cycle(bs: seq<Byte>, n: nat): (r: seq<Byte>)
    requires |bs| > 0
    ensures |r| == n
    decreases n
  {
    if n <= |bs| then bs[..n] else bs + Cycle(bs, n - |bs|)
  }

  /** `bcrypt.hash(password, 12)`; the salt is the call's randomness. */
  function HashPassword(password: string, salt: nat): (h: Hash)
    ensures Verifies(password, h)
    ensures h.salt == salt
  {
    Hash(password, salt)
  }

  /** `bcrypt.compare(password, h)`: the two passwords give the same key.
      Blowfish collisions between different keys are not modelled. */
  predicate Verifies(password: string, h: Hash) {
    BcryptKey(password) == BcryptKey(h.secret)
  }

  /** Only the first 72 bytes count: a password that shares the first 72
      characters of the stored one is accepted, whatever follows. */
  lemma LongPasswordsCollide(password: string, other: string, salt: nat)
    requires |password| >= KeyBytes && |other| >= KeyBytes
    requires password[..KeyBytes] == other[..KeyBytes]
    ensures Verifies(other, HashPassword(password, salt))
  {
    KeyPrefix(password);
    KeyPrefix(other);
  }

  /** Below the password's length the key byte is the password's own
      byte; at its end comes the terminating zero. */
  lemma KeyAt(password: string, i: nat)
    requires i < KeyBytes && i <= |Utf8(password)|
    ensures BcryptKey(password)[i] == if i < |Utf8(password)| then Utf8(password)[i] else 0
  {
    var bs := Utf8(password) + [0];
    assert BcryptKey(password) == Cycle(bs, KeyBytes);
    assert Cycle(bs, KeyBytes)[i] == bs[i];
  }

  /** A password of at least 72 characters keys on the encoding of its
      first 72 characters alone. */
  lemma KeyPrefix(p: string)
    requires |p| >= KeyBytes
    ensures BcryptKey(p) == Utf8(p[..KeyBytes])[..KeyBytes]
  {
    assert p == p[..KeyBytes] + p[KeyBytes..];
    Utf8Append(p[..KeyBytes], p[KeyBytes..]);
    forall i | 0 <= i < KeyBytes
      ensures BcryptKey(p)[i] == Utf8(p[..KeyBytes])[i]
    {
      KeyAt(p, i);
    }
  }

  /** Two different passwords that both end before byte 72, and contain no
      NUL character, never verify against each other's digest: below the
      limit the comparison is exact on the bytes. */
  lemma ShortPasswordsExact(password: string, other: string, salt: nat)
    requires |Utf8(password)| < KeyBytes
    requires forall k :: 0 <= k < |password| ==> password[k] != 0 as char
    requires forall k :: 0 <= k < |other| ==> other[k] != 0 as char
    ensures Verifies(other, HashPassword(password, salt)) <==> Utf8(other) == Utf8(password)
  {
    var p, q := Utf8(password), Utf8(other);
    if BcryptKey(other) == BcryptKey(password) {
      var n := |p|;
      KeyAt(password, n);
      if |q| < n {
        KeyAt(other, |q|);
        KeyAt(password, |q|);
        Utf8NoZero(password);
        assert false;
      }
      if |q| > n {
        KeyAt(other, n);
        Utf8NoZero(other);
        assert false;
      }
      forall i | 0 <= i < n ensures q[i] == p[i] {
        KeyAt(other, i);
        KeyAt(password, i);
      }
      assert q == p;
    }
  }

  /** A document of the user_goals collection (also the client's goal counters). */
  datatype Goals = Goals(daysTracked: nat, symptomsLogged: nat, medicationsTaken: nat, goalsAchieved: nat)

  const ZeroGoals := Goals(0, 0, 0, 0)

  /** A document of the users collection. */
  datatype User = User(
    firstName: string,
    lastName: string,
    email: string,
    passwordHash: Hash,
    age: int,
    menopauseStage: string,
    newsletter: bool,
    isActive: bool,
    isAdmin: bool,
    createdAt: nat,
    lastLogin: Option<nat>)

  /** A document of the user_sessions collection. */
  datatype Session = Session(userId: UserId, token: string, expiresAt: nat, isActive: bool)

  /** What `jwt.sign` is given: the payload and the `expiresIn` option, with
      the issuing instant that jsonwebtoken adds as `iat`. */
  datatype Claims = Claims(userId: UserId, email: string, issuedAt: nat, expiresIn: string)

  /** The five menopause stages registration accepts. */
  const Stages: set<string> := {"premenopausal", "perimenopausal", "menopausal", "postmenopausal", "not-sure"}

  /** Marks every session of `uid` inactive and leaves every other session as it was. */
  function DeactivateAll(sessions: seq<Session>, uid: UserId): (r: seq<Session>)
    ensures |r| == |sessions|
    ensures forall i :: 0 <= i < |r| && sessions[i].userId == uid ==> !r[i].isActive
    ensures forall i :: 0 <= i < |r| && sessions[i].userId != uid ==> r[i] == sessions[i]
    ensures forall i :: 0 <= i < |r| ==>
      r[i] == sessions[i].(isActive := r[i].isActive)
  {
    if sessions == [] then []
    else
      var s := sessions[0];
      [if s.userId == uid then s.(isActive := false) else s] + DeactivateAll(sessions[1..], uid)
  }

  /** Deactivation is monotonic: running it again changes nothing, which is
      what makes re-running the batch safe. */
  lemma {:induction false} DeactivateAllIdempotent(sessions: seq<Session>, uid: UserId)
    ensures DeactivateAll(DeactivateAll(sessions, uid), uid) == DeactivateAll(sessions, uid)
  {
    var once := DeactivateAll(sessions, uid);
    var twice := DeactivateAll(once, uid);
    assert |twice| == |once|;
    forall i | 0 <= i < |once| ensures twice[i] == once[i] {
      if sessions[i].userId == uid {
        assert once[i] == sessions[i].(isActive := false);
      }
    }
  }
}
