/**
 What every run of the login calls keeps: a hash's record leaves the store for good when
 it is spent, and only the call that spent it can bind.
 */
module LoginInvariant {
  import opened CodeStores
  import opened LoginRuns

  predicate SameOrigin(a: PhoneCode, b: PhoneCode) {
    a.phone == b.phone && a.code == b.code && a.issuedUser == b.issuedUser && a.maxAttempts == b.maxAttempts
  }

  function Misses(s: State, h: string): nat { multiset(s.misses)[h] }

  /** The call has taken the record of its hash out of the store in this way. */
  predicate HasSpent(c: Call, way: Way) {
    match way
    case ByVerifyLogin => (c.at.InConfirm? && c.verdict.Accepted? && c.owner != 0) || c.at.InLookup? || c.at.InPassword? || c.at.InBind?
    case ByConsume => c.at.UpConfirm? || c.at.UpCreate? || c.at.UpBind?
  }

  predicate Drawing(c: Call) { c.at.SendOwner? || c.at.SendSet? }

  ghost predicate CallOk(s: State, i: nat, c: Call) {
    && (HasSpent(c, ByVerifyLogin) ==> c.hash in s.spent && s.spent[c.hash] == Spent(ByVerifyLogin, i))
    && (HasSpent(c, ByConsume) ==> c.hash in s.spent && s.spent[c.hash] == Spent(ByConsume, i))
    && (Drawing(c) ==> c.hash in s.used && c.hash !in s.issued)
    && (c.at.SendSet? ==> c.rec.attempts == 0)
    && (c.at.SendDeliver? || c.at.SendRollback? || c.at.Drop? ==> c.hash in s.issued)
    && (c.at.InOwner? ==> c.hash in s.issued && SameOrigin(c.rec, s.issued[c.hash]) && c.rec.phone == c.phone)
    && (c.at.InVerify? || c.at.InConfirm? || c.at.InLookup? || c.at.InPassword? || c.at.InBind? ==>
          c.hash in s.issued && c.owner == s.issued[c.hash].issuedUser && c.phone == s.issued[c.hash].phone)
    && (c.at.InLookup? || c.at.InPassword? || c.at.InBind? ==> c.owner != 0)
    && (c.at.UpOwner? || c.at.UpConsume? || HasSpent(c, ByConsume) ==>
          c.hash in s.issued && s.issued[c.hash].issuedUser == 0 && c.phone == s.issued[c.hash].phone)
    && (c.at.UpGet? || c.at.UpOwner? || c.at.UpConsume? || HasSpent(c, ByConsume) ==> !c.pending)
  }

  ghost predicate CodeOk(s: State, h: string)
    requires h in s.codes
  {
    && h in s.issued && SameOrigin(s.codes[h], s.issued[h]) && h !in s.spent
    && s.codes[h].attempts == Misses(s, h) < Limit(s.issued[h], DEFAULT_MAX_ATTEMPTS)
  }

  ghost predicate CodesOk(s: State) {
    && (forall h | h in s.codes :: CodeOk(s, h))
    && (forall h | h in s.issued :: h in s.used && Misses(s, h) <= Limit(s.issued[h], DEFAULT_MAX_ATTEMPTS))
    && (forall h | h !in s.issued :: Misses(s, h) == 0)
    && (forall h | h in s.spent :: h in s.issued)
  }

  ghost predicate CallsOk(s: State) {
    && (forall i | i in s.calls :: CallOk(s, i, s.calls[i]))
    && (forall i, j | i in s.calls && j in s.calls && i != j && Drawing(s.calls[i]) && Drawing(s.calls[j]) ::
          s.calls[i].hash != s.calls[j].hash)
  }

  ghost predicate BindOk(s: State, e: BindEvent) {
    && e.hash in s.issued && s.issued[e.hash].phone == e.phone
    && e.hash in s.spent && s.spent[e.hash] == e.spent
    && e.spent.call in s.calls && s.calls[e.spent.call].at.Finished?
    && (e.spent.way.ByVerifyLogin? ==> e.confirmed == s.issued[e.hash].issuedUser != 0)
    && (e.spent.way.ByConsume? ==> s.issued[e.hash].issuedUser == 0 && !e.pending)
  }

  ghost predicate BindsOk(s: State) {
    && (forall n | 0 <= n < |s.binds| :: BindOk(s, s.binds[n]))
    && (forall m, n | 0 <= m < n < |s.binds| :: s.binds[m].hash != s.binds[n].hash)
  }

  ghost predicate Inv(s: State) {
    CodesOk(s) && CallsOk(s) && BindsOk(s) && forall phone | phone in s.owners :: s.owners[phone] != 0
  }

  // ---- Pieces of a step ----

  /** s' is s after a step of call i, and only adds to the history of s. */
  ghost predicate Extends(s: State, s': State, i: nat) {
    && s.used <= s'.used
    && (forall h | h in s.issued :: h in s'.issued && s'.issued[h] == s.issued[h])
    && (forall h | h in s.spent :: h in s'.spent && s'.spent[h] == s.spent[h])
    && i in s'.calls && s'.calls == s.calls[i := s'.calls[i]]
  }

  lemma CallsKept(s: State, s': State, i: nat)
    requires CallsOk(s) && Extends(s, s', i) && CallOk(s', i, s'.calls[i])
    requires forall h | h in s'.issued && h !in s.issued :: i in s.calls && s.calls[i].at.SendSet? && s.calls[i].hash == h
    requires Drawing(s'.calls[i]) ==> i in s.calls && s.calls[i].at.SendOwner? && s'.calls[i].hash == s.calls[i].hash
    ensures CallsOk(s')
  {
    forall j | j in s'.calls && j != i ensures CallOk(s', j, s'.calls[j]) {
      assert CallOk(s, j, s.calls[j]);
    }
  }

  lemma BindsKept(s: State, s': State, i: nat)
    requires BindsOk(s) && Extends(s, s', i) && s'.binds == s.binds
    requires i in s.calls ==> !s.calls[i].at.Finished?
    ensures BindsOk(s')
  {
    forall n | 0 <= n < |s.binds| ensures BindOk(s', s'.binds[n]) {
      assert BindOk(s, s.binds[n]);
    }
  }

  /** A step that leaves the store of codes and the history alone. */
  lemma QuietKeepsInv(s: State, s': State, i: nat)
    requires Inv(s) && i in s.calls && !s.calls[i].at.Finished? && i in s'.calls
    requires s' == s.(owners := s'.owners, calls := s.calls[i := s'.calls[i]])
    requires CallOk(s', i, s'.calls[i]) && forall phone | phone in s'.owners :: s'.owners[phone] != 0
    requires Drawing(s'.calls[i]) ==> s.calls[i].at.SendOwner? && s'.calls[i].hash == s.calls[i].hash
    ensures Inv(s')
  {
    CallsKept(s, s', i);
    BindsKept(s, s', i);
    assert forall h | h in s'.codes :: CodeOk(s, h) ==> CodeOk(s', h);
  }

  lemma DropKeepsInv(s: State, s': State, i: nat, h: string)
    requires Inv(s) && i in s.calls && !s.calls[i].at.Finished? && i in s'.calls && s'.calls[i].at.Finished?
    requires s' == s.(codes := Without(s.codes, h), calls := s.calls[i := s'.calls[i]])
    ensures Inv(s')
  {
    CallsKept(s, s', i);
    BindsKept(s, s', i);
    assert forall x | x in s'.codes :: CodeOk(s, x) ==> CodeOk(s', x);
  }

  lemma SetKeepsCodes(s: State, s': State, h: string, rec: PhoneCode)
    requires CodesOk(s) && h in s.used && h !in s.issued && rec.attempts == 0
    requires s' == s.(codes := s.codes[h := rec], issued := s.issued[h := rec], calls := s'.calls)
    ensures CodesOk(s')
  {
    forall x | x in s'.codes ensures CodeOk(s', x) {
      if x != h { assert CodeOk(s, x); }
    }
    assert forall x :: Misses(s', x) == Misses(s, x);
  }

  lemma SetKeepsInv(s: State, s': State, i: nat, luck: Luck)
    requires Inv(s) && CallStep(s, s', i, luck) && s.calls[i].at.SendSet?
    ensures Inv(s')
  {
    var c := s.calls[i];
    assert CallOk(s, i, c);
    SetKeepsCodes(s, s', c.hash, c.rec);
    CallsKept(s, s', i);
    BindsKept(s, s', i);
  }

  lemma MissCounts(s: State, s': State, h: string)
    requires s'.misses == s.misses + [h]
    ensures forall x :: Misses(s', x) == Misses(s, x) + if x == h then 1 else 0
  {
    assert multiset(s'.misses) == multiset(s.misses) + multiset{h};
  }

  /** A counted mismatch: one more attempt on the record, or its end. */
  lemma MissKeepsCodes(s: State, s': State, h: string)
    requires CodesOk(s) && h in s.codes
    requires s'.used == s.used && s'.issued == s.issued && s'.spent == s.spent && s'.misses == s.misses + [h]
    requires
      var rec := s.codes[h].(attempts := s.codes[h].attempts + 1);
      s'.codes == if rec.attempts >= Limit(rec, DEFAULT_MAX_ATTEMPTS) then Without(s.codes, h) else s.codes[h := rec]
    ensures CodesOk(s')
  {
    MissCounts(s, s', h);
    assert CodeOk(s, h);
    forall x | x in s'.codes ensures CodeOk(s', x) {
      if x != h { assert CodeOk(s, x); }
    }
  }

  /** An accepted code either takes the record out of the store or marks it for sign-up. */
  lemma AcceptKeepsCodes(s: State, s': State, h: string, spent: Spent, keep: bool)
    requires CodesOk(s) && h in s.codes
    requires s'.used == s.used && s'.issued == s.issued && s'.misses == s.misses
    requires keep ==> s'.spent == s.spent && s'.codes == s.codes[h := s.codes[h].(signUpVerified := true)]
    requires !keep ==> s'.spent == s.spent[h := spent] && s'.codes == Without(s.codes, h)
    ensures CodesOk(s')
  {
    assert forall x :: Misses(s', x) == Misses(s, x);
    assert CodeOk(s, h);
    forall x | x in s'.codes ensures CodeOk(s', x) {
      assert CodeOk(s, x);
    }
  }

  lemma VerifyKeepsCodes(s: State, s': State, i: nat, c: Call)
    requires CodesOk(s) && s' == AfterVerifyLogin(s, i, c)
    ensures CodesOk(s')
  {
    match VerifyVerdict(s.codes, c.hash, c.phone, c.code)
    case Missing => forall x | x in s'.codes ensures CodeOk(s', x) { assert CodeOk(s, x); }
    case Invalid => MissKeepsCodes(s, s', c.hash);
    case Accepted => AcceptKeepsCodes(s, s', c.hash, Spent(ByVerifyLogin, i), c.owner == 0);
  }

  lemma VerifyKeepsInv(s: State, s': State, i: nat)
    requires Inv(s) && i in s.calls && s.calls[i].at.InVerify? && s' == AfterVerifyLogin(s, i, s.calls[i])
    ensures Inv(s')
  {
    var c := s.calls[i];
    assert CallOk(s, i, c);
    assert c.hash in s.codes ==> CodeOk(s, c.hash);
    VerifyKeepsCodes(s, s', i, c);
    CallsKept(s, s', i);
    BindsKept(s, s', i);
  }

  lemma ConsumedKeepsCodes(s: State, s': State, i: nat, c: Call)
    requires CodesOk(s) && Consumable(s.codes, c.hash, c.phone) && s' == AfterConsume(s, i, c)
    ensures CodesOk(s')
  {
    AcceptKeepsCodes(s, s', c.hash, Spent(ByConsume, i), false);
  }

  lemma ConsumedKeepsCalls(s: State, s': State, i: nat)
    requires CodesOk(s) && CallsOk(s) && i in s.calls && s.calls[i].at.UpConsume?
    requires Consumable(s.codes, s.calls[i].hash, s.calls[i].phone) && s' == AfterConsume(s, i, s.calls[i])
    ensures Extends(s, s', i) && CallsOk(s')
  {
    var c := s.calls[i];
    assert CallOk(s, i, c);
    assert CodeOk(s, c.hash);
    CallsKept(s, s', i);
  }

  lemma ConsumeKeepsInv(s: State, s': State, i: nat)
    requires Inv(s) && i in s.calls && s.calls[i].at.UpConsume? && s' == AfterConsume(s, i, s.calls[i])
    ensures Inv(s')
  {
    var c := s.calls[i];
    if Consumable(s.codes, c.hash, c.phone) {
      ConsumedKeepsCodes(s, s', i, c);
      ConsumedKeepsCalls(s, s', i);
      BindsKept(s, s', i);
    } else {
      assert CallOk(s, i, c);
      QuietKeepsInv(s, s', i);
    }
  }

  lemma BindKeepsBinds(s: State, s': State, i: nat, way: Way, luck: Luck)
    requires BindsOk(s) && i in s.calls && CallOk(s, i, s.calls[i]) && s' == AfterBind(s, i, s.calls[i], way, luck)
    requires s.calls[i].at == if way.ByVerifyLogin? then InBind else UpBind
    ensures BindsOk(s')
  {
    var e := s'.binds[|s.binds|];
    forall n | 0 <= n < |s'.binds| ensures BindOk(s', s'.binds[n]) {
      if n < |s.binds| { assert BindOk(s, s.binds[n]); }
    }
    forall m | 0 <= m < |s.binds| ensures s.binds[m].hash != e.hash {
      assert BindOk(s, s.binds[m]);
    }
  }

  lemma BindKeepsCodes(s: State, s': State, i: nat, way: Way, luck: Luck)
    requires CodesOk(s) && i in s.calls && s' == AfterBind(s, i, s.calls[i], way, luck)
    ensures CodesOk(s')
  {
    assert forall h | h in s'.codes :: CodeOk(s, h) ==> CodeOk(s', h);
  }

  lemma BindKeepsInv(s: State, s': State, i: nat, way: Way, luck: Luck)
    requires Inv(s) && i in s.calls && s' == AfterBind(s, i, s.calls[i], way, luck)
    requires s.calls[i].at == if way.ByVerifyLogin? then InBind else UpBind
    ensures Inv(s')
  {
    assert CallOk(s, i, s.calls[i]);
    CallsKept(s, s', i);
    BindKeepsBinds(s, s', i, way, luck);
    BindKeepsCodes(s, s', i, way, luck);
  }

  predicate ReadsOnly(c: Call) {
    !(c.at.SendSet? || c.at.SendRollback? || c.at.Drop? || c.at.InVerify? || c.at.InBind? || c.at.UpConsume? || c.at.UpCreate? || c.at.UpBind?)
  }

  lemma SendReadKeepsCall(s: State, i: nat, c: Call, luck: Luck)
    requires CallOk(s, i, c) && (c.at.SendOwner? || c.at.SendDeliver?)
    ensures var c' := AfterRead(s, c, luck); CallOk(s, i, c') && (Drawing(c') ==> c.at.SendOwner? && c'.hash == c.hash)
  {
  }

  lemma InReadKeepsCall(s: State, i: nat, c: Call, luck: Luck)
    requires CallOk(s, i, c)
    requires c.hash in s.codes ==> CodeOk(s, c.hash)
    requires c.at.InGet? || c.at.InOwner? || c.at.InConfirm? || c.at.InLookup? || c.at.InPassword?
    ensures var c' := AfterRead(s, c, luck); CallOk(s, i, c') && !Drawing(c')
  {
  }

  lemma UpReadKeepsCall(s: State, i: nat, c: Call, luck: Luck)
    requires CallOk(s, i, c)
    requires c.hash in s.codes ==> CodeOk(s, c.hash)
    requires c.at.UpGet? || c.at.UpOwner? || c.at.UpConfirm?
    ensures var c' := AfterRead(s, c, luck); CallOk(s, i, c') && !Drawing(c')
  {
  }

  lemma ReadStepKeepsInv(s: State, s': State, i: nat, luck: Luck)
    requires Inv(s) && i in s.calls && ReadsOnly(s.calls[i]) && !s.calls[i].at.Finished?
    requires s' == Put(s, i, AfterRead(s, s.calls[i], luck))
    ensures Inv(s')
  {
    var c := s.calls[i];
    var c' := AfterRead(s, c, luck);
    assert CallOk(s, i, c) && (c.hash in s.codes ==> CodeOk(s, c.hash));
    assert CallOk(s, i, c') && (Drawing(c') ==> c.at.SendOwner? && c'.hash == c.hash) by {
      if c.at.SendOwner? || c.at.SendDeliver? { SendReadKeepsCall(s, i, c, luck); }
      else if c.at.UpGet? || c.at.UpOwner? || c.at.UpConfirm? { UpReadKeepsCall(s, i, c, luck); }
      else { InReadKeepsCall(s, i, c, luck); }
    }
    assert CallOk(s', i, c');
    QuietKeepsInv(s, s', i);
  }

  lemma CreateKeepsInv(s: State, s': State, i: nat, luck: Luck)
    requires Inv(s) && CallStep(s, s', i, luck) && s.calls[i].at.UpCreate?
    ensures Inv(s')
  {
    assert CallOk(s, i, s.calls[i]);
    QuietKeepsInv(s, s', i);
  }

  lemma CallStepKeepsInv(s: State, s': State, i: nat, luck: Luck)
    requires Inv(s) && CallStep(s, s', i, luck)
    ensures Inv(s')
  {
    var c := s.calls[i];
    match c.at
    case SendSet => SetKeepsInv(s, s', i, luck);
    case SendRollback => DropKeepsInv(s, s', i, c.hash);
    case Drop => DropKeepsInv(s, s', i, c.hash);
    case InVerify => VerifyKeepsInv(s, s', i);
    case InBind => BindKeepsInv(s, s', i, ByVerifyLogin, luck);
    case UpConsume => ConsumeKeepsInv(s, s', i);
    case UpCreate => CreateKeepsInv(s, s', i, luck);
    case UpBind => BindKeepsInv(s, s', i, ByConsume, luck);
    case _ => ReadStepKeepsInv(s, s', i, luck);
  }

  lemma StartKeepsCalls(s: State, s': State, i: nat, c: Call)
    requires CodesOk(s) && CallsOk(s) && StartStep(s, s', i, c)
    ensures CallsOk(s')
  {
    forall j | j in s'.calls && j != i ensures CallOk(s', j, s'.calls[j]) {
      assert CallOk(s, j, s.calls[j]);
    }
  }

  lemma StartKeepsCodes(s: State, s': State, i: nat, c: Call)
    requires CodesOk(s) && StartStep(s, s', i, c)
    ensures CodesOk(s')
  {
    assert forall h | h in s'.codes :: CodeOk(s, h) ==> CodeOk(s', h);
  }

  lemma StartKeepsInv(s: State, s': State, i: nat, c: Call)
    requires Inv(s) && StartStep(s, s', i, c)
    ensures Inv(s')
  {
    BindsKept(s, s', i);
    StartKeepsCalls(s, s', i, c);
    StartKeepsCodes(s, s', i, c);
  }

  lemma OutsideKeepsInv(s: State, s': State)
    requires Inv(s) && OutsideStep(s, s')
    ensures Inv(s')
  {
    forall j | j in s'.calls ensures CallOk(s', j, s'.calls[j]) { assert CallOk(s, j, s.calls[j]); }
    forall n | 0 <= n < |s.binds| ensures BindOk(s', s'.binds[n]) { assert BindOk(s, s.binds[n]); }
    assert forall h | h in s'.codes :: CodeOk(s, h) ==> CodeOk(s', h);
  }

  lemma StepKeepsInv(s: State, s': State)
    requires Inv(s) && Step(s, s')
    ensures Inv(s')
  {
    if i, luck :| CallStep(s, s', i, luck) {
      CallStepKeepsInv(s, s', i, luck);
    } else if i, c :| StartStep(s, s', i, c) {
      StartKeepsInv(s, s', i, c);
    } else {
      OutsideKeepsInv(s, s');
    }
  }

  lemma InitInv(s: State)
    requires Init(s)
    ensures Inv(s)
  {}

  lemma {:induction false} RunKeepsInv(run: seq<State>, n: nat)
    requires IsRun(run) && n < |run|
    ensures Inv(run[n])
  {
    if n == 0 {
      InitInv(run[0]);
    } else {
      RunKeepsInv(run, n - 1);
      assert StepsOn(run, n - 1);
      StepKeepsInv(run[n - 1], run[n]);
    }
  }
}
