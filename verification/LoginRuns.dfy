/**
 SendCode, SignIn and SignUp as steps between their calls to the stores. Any number of
 calls run at once, and phones change owners and accounts gain or lose passwords at any
 moment in between.
 */
module LoginRuns {
  import opened CodeStores

  const DEFAULT_MAX_ATTEMPTS := 5

  datatype Outcome =
    | Running | CodeSent | DeliveryFailed | CodeExpired | CodeInvalid | SignUpRequired
    | Authorized | PasswordNeeded | CreateFailed | BindFailed

  /** The next store call of a call in progress. */
  datatype Point =
    | SendOwner | SendSet | SendDeliver | SendRollback
    | InGet | InOwner | InVerify | InConfirm | InLookup | InPassword | InBind | Drop
    | UpGet | UpOwner | UpConsume | UpConfirm | UpCreate | UpBind
    | Finished

  /** A call in progress: its arguments and what it remembers of the stores. */
  datatype Call = Call(
    at: Point, hash: string, phone: string, code: string,
    rec: PhoneCode,           // the record it read, or is about to store
    owner: int,               // the owner seen before the code was verified
    verdict: Verdict,
    user: int, pending: bool, // the account it is about to bind
    outcome: Outcome)

  datatype Way = ByVerifyLogin | ByConsume

  datatype Spent = Spent(way: Way, call: nat)

  datatype BindEvent = BindEvent(hash: string, phone: string, user: int, pending: bool, confirmed: int, spent: Spent)

  datatype State = State(
    codes: Codes,
    owners: map<string, int>,           // live account of each phone
    passwords: set<int>,                // accounts with a password
    calls: map<nat, Call>,
    used: set<string>,                  // every hash drawn so far
    // history
    issued: map<string, PhoneCode>,     // the record each hash was issued with
    spent: map<string, Spent>,          // which call took the record out, and how
    binds: seq<BindEvent>,
    misses: seq<string>)                // the hash of every mismatch VerifyLogin counted

  function Owner(s: State, phone: string): int { if phone in s.owners then s.owners[phone] else 0 }

  function Put(s: State, i: nat, c: Call): State { s.(calls := s.calls[i := c]) }

  function End(c: Call, o: Outcome): Call { c.(at := Finished, outcome := o) }

  /** What the outside decides during a step: delivery, creation and binding may fail. */
  datatype Luck = Luck(ok: bool, newUser: int)

  // ---- Steps that only read the stores: the call afterwards ----

  function AfterInGet(s: State, c: Call): Call {
    if c.hash !in s.codes then End(c, CodeExpired)
    else if s.codes[c.hash].phone != c.phone then End(c, CodeInvalid)
    else c.(at := InOwner, rec := s.codes[c.hash])
  }

  function AfterInOwner(s: State, c: Call): Call {
    var before := Owner(s, c.phone);
    if c.rec.issuedUser != before then c.(at := Drop)
    else if c.rec.signUpVerified then End(c, if before != 0 || c.rec.code != c.code then CodeInvalid else SignUpRequired)
    else c.(at := InVerify, owner := before)
  }

  function AfterInConfirm(s: State, c: Call): Call {
    var now := Owner(s, c.phone);
    if c.owner != now then c.(at := Drop)
    else
      match c.verdict
      case Missing => End(c, CodeExpired)
      case Invalid => End(c, CodeInvalid)
      case Accepted => if now == 0 then End(c, SignUpRequired) else c.(at := InLookup)
  }

  function AfterInLookup(s: State, c: Call): Call {
    if c.phone in s.owners then c.(at := InPassword, user := s.owners[c.phone]) else End(c, SignUpRequired)
  }

  function AfterUpGet(s: State, c: Call): Call {
    if c.hash !in s.codes then End(c, CodeExpired)
    else
      var rec := s.codes[c.hash];
      if rec.phone != c.phone || !rec.signUpVerified || rec.issuedUser != 0 then End(c, CodeInvalid)
      else c.(at := UpOwner)
  }

  function AfterRead(s: State, c: Call, luck: Luck): Call {
    match c.at
    case SendOwner => c.(at := SendSet, rec := PhoneCode(Owner(s, c.phone), false, c.phone, c.code, 0, c.rec.maxAttempts))
    case SendDeliver => if luck.ok then End(c, CodeSent) else c.(at := SendRollback)
    case InGet => AfterInGet(s, c)
    case InOwner => AfterInOwner(s, c)
    case InConfirm => AfterInConfirm(s, c)
    case InLookup => AfterInLookup(s, c)
    case InPassword => c.(at := InBind, pending := c.user in s.passwords)
    case UpGet => AfterUpGet(s, c)
    case UpOwner => c.(at := if Owner(s, c.phone) != 0 then Drop else UpConsume)
    case UpConfirm => if Owner(s, c.phone) != 0 then End(c, CodeInvalid) else c.(at := UpCreate)
    case _ => c
  }

  // ---- Steps that change a store ----

  function AfterVerifyLogin(s: State, i: nat, c: Call): State {
    var verdict, keep := VerifyVerdict(s.codes, c.hash, c.phone, c.code), c.owner == 0;
    Put(s, i, c.(at := InConfirm, verdict := verdict))
      .(codes := AfterVerify(s.codes, c.hash, c.phone, c.code, keep, DEFAULT_MAX_ATTEMPTS),
        spent := if verdict.Accepted? && !keep then s.spent[c.hash := Spent(ByVerifyLogin, i)] else s.spent,
        misses := if verdict.Invalid? then s.misses + [c.hash] else s.misses)
  }

  function AfterConsume(s: State, i: nat, c: Call): State {
    if !Consumable(s.codes, c.hash, c.phone) then Put(s, i, End(c, CodeExpired))
    else
      var rec := s.codes[c.hash];
      Put(s, i, if rec.issuedUser != 0 || !rec.signUpVerified then End(c, CodeInvalid) else c.(at := UpConfirm))
        .(codes := Without(s.codes, c.hash), spent := s.spent[c.hash := Spent(ByConsume, i)])
  }

  function AfterBind(s: State, i: nat, c: Call, way: Way, luck: Luck): State {
    Put(s, i, End(c, if !luck.ok then BindFailed else if c.pending then PasswordNeeded else Authorized))
      .(binds := s.binds + [BindEvent(c.hash, c.phone, c.user, c.pending, c.owner, Spent(way, i))])
  }

  function After(s: State, i: nat, c: Call, luck: Luck): State {
    match c.at
    case SendSet => Put(s, i, c.(at := SendDeliver)).(codes := s.codes[c.hash := c.rec], issued := s.issued[c.hash := c.rec])
    case SendRollback => Put(s, i, End(c, DeliveryFailed)).(codes := Without(s.codes, c.hash))
    case Drop => Put(s, i, End(c, CodeInvalid)).(codes := Without(s.codes, c.hash))
    case InVerify => AfterVerifyLogin(s, i, c)
    case InBind => AfterBind(s, i, c, ByVerifyLogin, luck)
    case UpConsume => AfterConsume(s, i, c)
    case UpCreate =>
      if !luck.ok || c.phone in s.owners then Put(s, i, End(c, CreateFailed))
      else Put(s, i, c.(at := UpBind, user := luck.newUser)).(owners := s.owners[c.phone := luck.newUser])
    case UpBind => AfterBind(s, i, c, ByConsume, luck)
    case _ => Put(s, i, AfterRead(s, c, luck))
  }

  ghost predicate CallStep(s: State, s': State, i: nat, luck: Luck) {
    i in s.calls && !s.calls[i].at.Finished? && luck.newUser != 0 && s' == After(s, i, s.calls[i], luck)
  }

  predicate Begins(c: Call) {
    c.outcome.Running? && c.owner == 0 && !c.pending && (c.at.SendOwner? || c.at.InGet? || c.at.UpGet?)
  }

  /** A new call; SendCode draws a hash never drawn before. */
  ghost predicate StartStep(s: State, s': State, i: nat, c: Call) {
    && i !in s.calls && Begins(c) && (c.at.SendOwner? ==> c.hash !in s.used)
    && s' == Put(s, i, c).(used := if c.at.SendOwner? then s.used + {c.hash} else s.used)
  }

  /** Phones change hands, accounts come and go, passwords are set and removed. */
  ghost predicate OutsideStep(s: State, s': State) {
    && (forall phone | phone in s'.owners :: s'.owners[phone] != 0)
    && s' == s.(owners := s'.owners, passwords := s'.passwords)
  }

  ghost predicate Step(s: State, s': State) {
    || (exists i, luck :: CallStep(s, s', i, luck))
    || (exists i, c :: StartStep(s, s', i, c))
    || OutsideStep(s, s')
  }

  ghost predicate Init(s: State) {
    && s.codes == map[] && s.calls == map[] && s.used == {}
    && s.issued == map[] && s.spent == map[] && s.binds == [] && s.misses == []
    && forall phone | phone in s.owners :: s.owners[phone] != 0
  }

  ghost predicate StepsOn(run: seq<State>, n: nat) { n + 1 < |run| && Step(run[n], run[n + 1]) }

  ghost predicate IsRun(run: seq<State>) {
    run != [] && Init(run[0]) && forall n | 0 <= n < |run| - 1 :: StepsOn(run, n)
  }
}
