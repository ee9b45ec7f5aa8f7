/**
 account.getPassword and account.checkPassword over the store of password settings.
 Random bytes are inputs. Settings that neither call reads are left out.
 */
module Passwords {
  import opened Wrappers
  import opened ByteStrings
  import opened ModArith
  import opened Srp
  import Bignum

  datatype Algo = Algo(salt1: Bytes, salt2: Bytes, g: int, p: Bytes)

  datatype Settings = Settings(
    hasPassword: bool, secureRandom: Bytes, newAlgo: Algo, currentAlgo: Option<Algo>,
    srpId: Int64, verifier: Bytes, bSecret: Bytes, b: Bytes)

  datatype Check = Check(empty: bool, srpId: Int64, a: Bytes, m1: Bytes)

  datatype PasswordError = VerifierRange | HashInvalid | SrpIdInvalid | SrpPasswordChanged

  type Rows = map<int, Settings>

  const DEFAULT_SECURE_RANDOM: Bytes := Latin("telesrv-tdesktop-dev-secure-rand")

  const DEFAULT_ALGO: Algo := Algo([0xEC, 0xF8, 0x73, 0x76, 0x65, 0xBC, 0x77, 0x5A], BASE_SALT2, 3, BaseP())

  const DEFAULT_SETTINGS: Settings := Settings(false, DEFAULT_SECURE_RANDOM, DEFAULT_ALGO, None, 0, [], [], [])

  function Normalize(s: Settings): Settings {
    var random := if s.secureRandom == [] then DEFAULT_SECURE_RANDOM else s.secureRandom;
    var newAlgo := if s.newAlgo.p == [] then DEFAULT_ALGO else s.newAlgo;
    var currentAlgo := if s.hasPassword && s.currentAlgo.None? then Some(newAlgo) else s.currentAlgo;
    s.(secureRandom := random, newAlgo := newAlgo, currentAlgo := currentAlgo)
  }

  function Load(rows: Rows, user: int): Settings {
    Normalize(if user in rows then rows[user] else DEFAULT_SETTINGS)
  }

  function Salt1(s: Settings): Bytes { if s.currentAlgo.Some? then s.currentAlgo.value.salt1 else s.newAlgo.salt1 }

  /** The settings after a new challenge is rolled; an unassigned srp_id gets a nonzero draw. */
  function Rolled(s: Settings, challenge: Challenge, idDraw: Int64): Settings {
    s.(bSecret := challenge.bSecret, b := challenge.b,
      srpId := if s.srpId != 0 then s.srpId else if idDraw != 0 then idDraw else 1)
  }

  function CheckAgainst(s: Settings, check: Check, expected: Result<Digest, SrpError>): Result<(), PasswordError> {
    if check.empty then if s.hasPassword then Err(HashInvalid) else Ok(())
    else if !s.hasPassword then Err(HashInvalid)
    else if s.srpId == 0 || s.srpId != check.srpId then Err(SrpIdInvalid)
    else if s.verifier == [] || s.bSecret == [] || s.b == [] then Err(SrpPasswordChanged)
    else if expected.Err? || expected.value != check.m1 then Err(HashInvalid)
    else Ok(())
  }

  function CheckSrp(h: Hashes, s: Settings, check: Check): Result<(), PasswordError> {
    CheckAgainst(s, check, CalcM1(h, Salt1(s), s.verifier, s.bSecret, s.b, check.a))
  }

  /** One call of GetPassword, with the random bytes it draws. */
  datatype Call = Call(user: int, bSecret: Bytes, idDraw: Int64)

  function AfterGet(h: Hashes, rows: Rows, c: Call): Rows {
    var s := Load(rows, c.user);
    if !s.hasPassword then rows
    else
      var challenge := MakeChallenge(h, s.verifier, c.bSecret);
      if challenge.Err? then rows else rows[c.user := Rolled(s, challenge.value, c.idDraw)]
  }

  class PasswordStore {
    var rows: Rows

    constructor (initial: Rows)
      ensures rows == initial
    {
      rows := initial;
    }

    method GetByUser(user: int) returns (r: Option<Settings>)
      ensures r == if user in rows then Some(rows[user]) else None
    {
      r := if user in rows then Some(rows[user]) else None;
    }

    method Save(user: int, settings: Settings)
      modifies this
      ensures rows == old(rows)[user := settings]
    {
      rows := rows[user := settings];
    }
  }

  method LoadNormalized(passwords: PasswordStore, user: int) returns (settings: Settings)
    ensures settings == Load(passwords.rows, user)
  {
    var found := passwords.GetByUser(user);
    settings := if found.Some? then found.value else DEFAULT_SETTINGS;
    if settings.secureRandom == [] { settings := settings.(secureRandom := DEFAULT_SECURE_RANDOM); }
    if settings.newAlgo.p == [] { settings := settings.(newAlgo := DEFAULT_ALGO); }
    if settings.hasPassword && settings.currentAlgo.None? {
      settings := settings.(currentAlgo := Some(settings.newAlgo));
    }
  }

  method GetPassword(h: Hashes, passwords: PasswordStore, user: int, bSecret: Bytes, idDraw: Int64)
    returns (r: Result<Settings, PasswordError>)
    modifies passwords
    ensures passwords.rows == AfterGet(h, old(passwords.rows), Call(user, bSecret, idDraw))
    ensures
      var s := Load(old(passwords.rows), user);
      r == if s.hasPassword && MakeChallenge(h, s.verifier, bSecret).Err? then Err(VerifierRange)
           else Ok(Load(passwords.rows, user))
  {
    var settings := LoadNormalized(passwords, user);
    if !settings.hasPassword { return Ok(settings); }
    var challenge := MakeChallenge(h, settings.verifier, bSecret);
    if challenge.Err? { return Err(VerifierRange); }
    settings := settings.(bSecret := challenge.value.bSecret, b := challenge.value.b);
    if settings.srpId == 0 {
      settings := settings.(srpId := if idDraw != 0 then idDraw else 1);
    }
    passwords.Save(user, settings);
    return Ok(settings);
  }

  /** The check carries the proof of (A * v^u)^b for a public value in range and a u that is not zero. */
  predicate Proves(h: Hashes, s: Settings, check: Check) {
    var a, b := PadToHash(check.a), PadToHash(s.b);
    var u := Scrambler(h, a, b);
    && 0 < Nat(check.a) < P && 0 < Nat(s.verifier) < P && !AllZero(u)
    && check.m1 == Proof(h, Salt1(s), BASE_SALT2, a, b, h.sha256(SessionKey(s.verifier, u, s.bSecret, check.a)))
  }

  /** A challenge that was rolled and not taken back. */
  predicate IsLive(s: Settings) { s.verifier != [] && s.bSecret != [] && s.b != [] }

  /**
   Accepts no proof exactly from accounts without a password, and a proof exactly when it answers the
   live challenge by its id and proves the server's number; an unknown id is told before a missing challenge.
   */
  method CheckPassword(h: Hashes, passwords: PasswordStore, user: int, check: Check) returns (r: Result<(), PasswordError>)
    ensures
      var s := Load(passwords.rows, user);
      && (check.empty ==> r == if s.hasPassword then Err(HashInvalid) else Ok(()))
      && (r.Ok? && !check.empty <==>
            !check.empty && s.hasPassword && s.srpId == check.srpId != 0 && IsLive(s) && Proves(h, s, check))
      && (r == Err(SrpIdInvalid) <==> !check.empty && s.hasPassword && !(s.srpId == check.srpId != 0))
      && (r == Err(SrpPasswordChanged) <==> !check.empty && s.hasPassword && s.srpId == check.srpId != 0 && !IsLive(s))
    ensures r == CheckSrp(h, Load(passwords.rows, user), check)
  {
    var settings := LoadNormalized(passwords, user);
    ExpectedProof(h, Salt1(settings), settings.verifier, settings.bSecret, settings.b, check.a);
    r := CheckSrp(h, settings, check);
  }

  // ---- Runs of GetPassword ----

  function AfterGets(h: Hashes, rows: Rows, calls: seq<Call>): Rows {
    if calls == [] then rows else AfterGet(h, AfterGets(h, rows, calls[..|calls| - 1]), calls[|calls| - 1])
  }

  /** What GetPassword never changes of an account: its password, and the salts it was set with. */
  predicate SameAccount(s: Settings, t: Settings) {
    && s.hasPassword == t.hasPassword && s.verifier == t.verifier && s.currentAlgo == t.currentAlgo && s.newAlgo == t.newAlgo
    && s.secureRandom == t.secureRandom && (t.srpId != 0 ==> s.srpId == t.srpId)
  }

  /** What is loaded is complete, and what was stored is not replaced. */
  lemma LoadCompletes(rows: Rows, user: int)
    ensures
      var s, t := if user in rows then rows[user] else DEFAULT_SETTINGS, Load(rows, user);
      && t.secureRandom != [] && t.newAlgo.p != [] && (t.hasPassword ==> t.currentAlgo.Some?)
      && (s.secureRandom != [] ==> t.secureRandom == s.secureRandom)
      && (s.newAlgo.p != [] ==> t.newAlgo == s.newAlgo) && (s.newAlgo.p == [] ==> t.newAlgo == DEFAULT_ALGO)
      && (s.currentAlgo.Some? || !s.hasPassword ==> t.currentAlgo == s.currentAlgo)
      && (s.currentAlgo.None? && s.hasPassword ==> t.currentAlgo == Some(t.newAlgo))
      && t.hasPassword == s.hasPassword && t.verifier == s.verifier && t.srpId == s.srpId && t.bSecret == s.bSecret && t.b == s.b
  {
    assert |DEFAULT_SECURE_RANDOM| > 0;
    assert DEFAULT_ALGO.p == BaseP() && BaseP() != [];
  }

  lemma NormalizeTwice(s: Settings)
    ensures Normalize(Normalize(s)) == Normalize(s)
  {
  }

  lemma GetRolls(h: Hashes, rows: Rows, c: Call)
    ensures
      var s := Load(rows, c.user);
      var challenge := MakeChallenge(h, s.verifier, c.bSecret);
      Load(AfterGet(h, rows, c), c.user) ==
      if s.hasPassword && challenge.Ok? then Rolled(s, challenge.value, c.idDraw) else s
  {
    NormalizeTwice(if c.user in rows then rows[c.user] else DEFAULT_SETTINGS);
  }

  lemma GetLeavesOthers(h: Hashes, rows: Rows, c: Call, user: int)
    requires user != c.user
    ensures Load(AfterGet(h, rows, c), user) == Load(rows, user)
  {
  }

  lemma {:induction false} GetsKeepAccounts(h: Hashes, rows: Rows, calls: seq<Call>, user: int)
    ensures SameAccount(Load(AfterGets(h, rows, calls), user), Load(rows, user))
  {
    if calls != [] {
      var before, last := calls[..|calls| - 1], calls[|calls| - 1];
      GetsKeepAccounts(h, rows, before, user);
      if last.user == user {
        GetRolls(h, AfterGets(h, rows, before), last);
      } else {
        GetLeavesOthers(h, AfterGets(h, rows, before), last, user);
      }
    }
  }

  lemma {:induction false} OthersKeepChallenge(h: Hashes, rows: Rows, calls: seq<Call>, user: int, n: nat)
    requires n <= |calls| && forall i | n <= i < |calls| :: calls[i].user != user
    ensures Load(AfterGets(h, rows, calls), user) == Load(AfterGets(h, rows, calls[..n]), user)
  {
    if n < |calls| {
      OthersKeepChallenge(h, rows, calls[..|calls| - 1], user, n);
      GetLeavesOthers(h, AfterGets(h, rows, calls[..|calls| - 1]), calls[|calls| - 1], user);
      assert calls[..|calls| - 1][..n] == calls[..n];
    } else {
      assert calls[..n] == calls;
    }
  }

  /** The proof a client makes from the settings GetPassword returned. */
  function ClientCheck(h: Hashes, s: Settings, password: Bytes, random: Bytes): Check
    requires s.currentAlgo.Some?
  {
    var answer := ClientProof(h, password, s.currentAlgo.value.salt1, s.currentAlgo.value.salt2, s.b, random);
    Check(false, s.srpId, answer.a, answer.m1)
  }

  /** The account's password, as whoever set it computed the verifier. */
  predicate HasPassword(h: Hashes, s: Settings, password: Bytes) {
    && s.hasPassword && s.currentAlgo.Some? && s.currentAlgo.value.salt2 == BASE_SALT2
    && s.verifier == ComputeVerifier(h, password, s.currentAlgo.value.salt1, BASE_SALT2)
  }

  /** Every password can be an account's. */
  lemma AnyPasswordCanBeHeld(h: Hashes, user: int, password: Bytes, salt1: Bytes) returns (s: Settings)
    ensures HasPassword(h, Load(map[user := s], user), password)
  {
    var v := ComputeVerifier(h, password, salt1, BASE_SALT2);
    s := Settings(true, [], DEFAULT_ALGO, Some(Algo(salt1, BASE_SALT2, 3, BaseP())), 0, v, [], []);
  }

  /** The check's answer to a client that knows the password. */
  predicate AcceptsUnlessZero(h: Hashes, s: Settings, check: Check, b: Bytes) {
    CheckSrp(h, s, check) == if AllZero(Scrambler(h, check.a, b)) then Err(HashInvalid) else Ok(())
  }

  lemma GoodVerifierIsStored(v: Bytes)
    requires Bignum.IsGoodLarge(v, BaseP())
    ensures v != []
  {
  }

  lemma KnownProof(s: Settings, check: Check, refused: bool, expected: Result<Digest, SrpError>)
    requires !check.empty && s.hasPassword && s.srpId == check.srpId != 0
    requires s.verifier != [] && s.bSecret != [] && s.b != []
    requires if refused then expected == Err(UIsZero) else expected.Ok? && expected.value == check.m1
    ensures CheckAgainst(s, check, expected) == if refused then Err(HashInvalid) else Ok(())
  {
  }

  lemma RolledAccepts(h: Hashes, s: Settings, bSecret: Bytes, idDraw: Int64, password: Bytes, random: Bytes)
    requires HasPassword(h, s, password) && |bSecret| == 256
    ensures
      var challenge := MakeChallenge(h, s.verifier, bSecret);
      && challenge.Ok?
      && var t := Rolled(s, challenge.value, idDraw);
      AcceptsUnlessZero(h, t, ClientCheck(h, t, password, random), t.b)
  {
    var salt1 := s.currentAlgo.value.salt1;
    ServerExpectsClientProof(h, password, salt1, random, bSecret);
    PublicValueIsGood(Ph2(h, password, salt1, BASE_SALT2));
    GoodVerifierIsStored(s.verifier);
    var t := Rolled(s, MakeChallenge(h, s.verifier, bSecret).value, idDraw);
    KnownProof(t, ClientCheck(h, t, password, random), AllZero(Scrambler(h, ClientCheck(h, t, password, random).a, t.b)),
      CalcM1(h, salt1, t.verifier, t.bSecret, t.b, ClientCheck(h, t, password, random).a));
  }

  lemma FreshChallengeAccepts(h: Hashes, rows: Rows, c: Call, password: Bytes, random: Bytes)
    requires HasPassword(h, Load(rows, c.user), password) && |c.bSecret| == 256
    ensures
      var s := Load(AfterGet(h, rows, c), c.user);
      s.currentAlgo.Some? && AcceptsUnlessZero(h, s, ClientCheck(h, s, password, random), s.b)
  {
    var s := Load(rows, c.user);
    RolledAccepts(h, s, c.bSecret, c.idDraw, password, random);
    GetRolls(h, rows, c);
  }

  /**
   After any calls of GetPassword, by any accounts, the proof made from the account's latest
   challenge is accepted, unless u happens to be zero.
   */
  lemma RightPasswordIsAccepted(h: Hashes, rows: Rows, calls: seq<Call>, n: nat, password: Bytes, random: Bytes)
    requires n < |calls| && |calls[n].bSecret| == 256
    requires HasPassword(h, Load(rows, calls[n].user), password)
    requires forall i | n < i < |calls| :: calls[i].user != calls[n].user
    ensures
      var user := calls[n].user;
      var told, now := Load(AfterGets(h, rows, calls[..n + 1]), user), Load(AfterGets(h, rows, calls), user);
      && told.currentAlgo.Some?
      && AcceptsUnlessZero(h, now, ClientCheck(h, told, password, random), told.b)
  {
    var user := calls[n].user;
    OthersKeepChallenge(h, rows, calls, user, n + 1);
    GetsKeepAccounts(h, rows, calls[..n], user);
    LastCall(h, rows, calls, n);
    FreshChallengeAccepts(h, AfterGets(h, rows, calls[..n]), calls[n], password, random);
  }

  lemma LastCall(h: Hashes, rows: Rows, calls: seq<Call>, n: nat)
    requires n < |calls|
    ensures AfterGets(h, rows, calls[..n + 1]) == AfterGet(h, AfterGets(h, rows, calls[..n]), calls[n])
  {
    assert calls[..n + 1][..n] == calls[..n];
  }

  /** A rolled challenge is answerable: whatever was stored, the srp_id is never the unassigned one. */
  lemma ChallengeIsLive(h: Hashes, rows: Rows, c: Call, password: Bytes)
    requires HasPassword(h, Load(rows, c.user), password)
    ensures
      var before, s := Load(rows, c.user), Load(AfterGet(h, rows, c), c.user);
      && s.srpId != 0 && |s.b| == 256 && s.bSecret == c.bSecret
      && s.srpId == if before.srpId != 0 then before.srpId else if c.idDraw != 0 then c.idDraw else 1
  {
    GetRolls(h, rows, c);
    PublicValueIsGood(Ph2(h, password, Load(rows, c.user).currentAlgo.value.salt1, BASE_SALT2));
  }
}
