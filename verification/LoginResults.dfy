/**
 The main results about logins, over every run.
 */
module LoginResults {
  import opened CodeStores
  import opened LoginRuns
  import opened LoginInvariant

  /** Each hash leads to at most one Bind. */
  lemma AtMostOneBindPerHash(run: seq<State>, n: nat)
    requires IsRun(run) && n < |run|
    ensures forall a, b | 0 <= a < b < |run[n].binds| :: run[n].binds[a].hash != run[n].binds[b].hash
  {
    RunKeepsInv(run, n);
  }

  /**
   A hash issued for an account binds only through the VerifyLogin that erased it, by the call
   that erased it and after that call confirmed that account; a hash issued for nobody binds
   only through ConsumeSignUpVerified.
   */
  lemma BindsGoTheIssuedWay(run: seq<State>, n: nat, m: nat)
    requires IsRun(run) && n < |run| && m < |run[n].binds|
    ensures
      var s, e := run[n], run[n].binds[m];
      && e.hash in s.issued && e.hash !in s.codes
      && e.hash in s.spent && s.spent[e.hash] == e.spent
      && (e.spent.way.ByVerifyLogin? <==> s.issued[e.hash].issuedUser != 0)
      && (e.spent.way.ByVerifyLogin? ==> e.confirmed == s.issued[e.hash].issuedUser)
      && (e.spent.way.ByConsume? ==> !e.pending)
  {
    RunKeepsInv(run, n);
    assert forall h | h in run[n].codes :: CodeOk(run[n], h);
    assert BindOk(run[n], run[n].binds[m]);
  }

  /** Each hash suffers at most its limit of mismatches, and a live record has not reached it. */
  lemma MismatchesAreBounded(run: seq<State>, n: nat, h: string)
    requires IsRun(run) && n < |run|
    ensures h in run[n].issued ==> Misses(run[n], h) <= Limit(run[n].issued[h], DEFAULT_MAX_ATTEMPTS)
    ensures h !in run[n].issued ==> Misses(run[n], h) == 0
    ensures h in run[n].codes ==>
      run[n].codes[h].attempts == Misses(run[n], h) < Limit(run[n].codes[h], DEFAULT_MAX_ATTEMPTS)
  {
    RunKeepsInv(run, n);
    if h in run[n].codes { assert CodeOk(run[n], h); }
  }

  predicate Binding(c: Call) { c.at.InBind? || c.at.UpBind? }

  predicate ReportsLogin(o: Outcome) { o.Authorized? || o.PasswordNeeded? || o.BindFailed? }

  lemma AfterBindRecords(s: State, i: nat, c: Call, way: Way, luck: Luck)
    ensures
      var s' := AfterBind(s, i, c, way, luck);
      && i in s'.calls && s'.calls == s.calls[i := s'.calls[i]]
      && |s'.binds| == |s.binds| + 1 && s'.binds[..|s.binds|] == s.binds
      && s'.binds[|s.binds|].spent.call == i && s'.binds[|s.binds|].pending == c.pending
      && s'.calls[i] == End(c, if !luck.ok then BindFailed else if c.pending then PasswordNeeded else Authorized)
  {
  }

  /** A Bind is recorded once, and is reported as it went. */
  lemma BindStepBinds(s: State, s': State, i: nat, luck: Luck)
    requires CallStep(s, s', i, luck) && Binding(s.calls[i])
    ensures i in s'.calls && s'.calls == s.calls[i := s'.calls[i]]
    ensures |s'.binds| == |s.binds| + 1 && s'.binds[..|s.binds|] == s.binds
    ensures s'.binds[|s.binds|].spent.call == i && s'.binds[|s.binds|].pending == s.calls[i].pending
    ensures s'.calls[i].at.Finished?
    ensures s'.calls[i].outcome == if !luck.ok then BindFailed else if s.calls[i].pending then PasswordNeeded else Authorized
  {
    AfterBindRecords(s, i, s.calls[i], if s.calls[i].at.InBind? then ByVerifyLogin else ByConsume, luck);
  }

  lemma ReadReportsNoLogin(s: State, c: Call, luck: Luck)
    requires c.outcome.Running? && ReadsOnly(c) && !c.at.Finished?
    ensures var c' := AfterRead(s, c, luck); !ReportsLogin(c'.outcome) && (!c'.at.Finished? ==> c'.outcome.Running?)
  {
  }

  lemma ReadStepBindsNothing(s: State, s': State, i: nat, luck: Luck)
    requires CallStep(s, s', i, luck) && ReadsOnly(s.calls[i]) && s.calls[i].outcome.Running?
    ensures i in s'.calls && s'.calls == s.calls[i := s'.calls[i]] && s'.binds == s.binds
    ensures !ReportsLogin(s'.calls[i].outcome) && (!s'.calls[i].at.Finished? ==> s'.calls[i].outcome.Running?)
  {
    assert s' == Put(s, i, AfterRead(s, s.calls[i], luck));
    ReadReportsNoLogin(s, s.calls[i], luck);
  }

  lemma CodeStepBindsNothing(s: State, s': State, i: nat, luck: Luck)
    requires CallStep(s, s', i, luck) && s.calls[i].outcome.Running?
    requires var c := s.calls[i]; c.at.SendSet? || c.at.SendRollback? || c.at.Drop?
    ensures i in s'.calls && s'.calls == s.calls[i := s'.calls[i]] && s'.binds == s.binds
    ensures !ReportsLogin(s'.calls[i].outcome) && (!s'.calls[i].at.Finished? ==> s'.calls[i].outcome.Running?)
  {
  }

  lemma TakeStepBindsNothing(s: State, s': State, i: nat, luck: Luck)
    requires CallStep(s, s', i, luck) && s.calls[i].outcome.Running?
    requires var c := s.calls[i]; c.at.InVerify? || c.at.UpConsume? || c.at.UpCreate?
    ensures i in s'.calls && s'.calls == s.calls[i := s'.calls[i]] && s'.binds == s.binds
    ensures !ReportsLogin(s'.calls[i].outcome) && (!s'.calls[i].at.Finished? ==> s'.calls[i].outcome.Running?)
  {
  }

  /** No other step of a call binds or reports a login. */
  lemma OtherStepBindsNothing(s: State, s': State, i: nat, luck: Luck)
    requires CallStep(s, s', i, luck) && !Binding(s.calls[i]) && s.calls[i].outcome.Running?
    ensures i in s'.calls && s'.calls == s.calls[i := s'.calls[i]] && s'.binds == s.binds
    ensures !ReportsLogin(s'.calls[i].outcome) && (!s'.calls[i].at.Finished? ==> s'.calls[i].outcome.Running?)
  {
    if ReadsOnly(s.calls[i]) {
      ReadStepBindsNothing(s, s', i, luck);
    } else if s.calls[i].at.InVerify? || s.calls[i].at.UpConsume? || s.calls[i].at.UpCreate? {
      TakeStepBindsNothing(s, s', i, luck);
    } else {
      CodeStepBindsNothing(s, s', i, luck);
    }
  }

  lemma VerifySpends(s: State, i: nat, c: Call)
    requires CodesOk(s)
    ensures
      var s' := AfterVerifyLogin(s, i, c);
      && s'.binds == s.binds && s'.issued == s.issued
      && forall h | h in s.spent :: h in s'.spent && s'.spent[h] == s.spent[h]
  {
    assert c.hash in s.codes ==> CodeOk(s, c.hash);
  }

  lemma ConsumeSpends(s: State, i: nat, c: Call)
    requires CodesOk(s)
    ensures
      var s' := AfterConsume(s, i, c);
      && s'.binds == s.binds && s'.issued == s.issued
      && forall h | h in s.spent :: h in s'.spent && s'.spent[h] == s.spent[h]
  {
    assert c.hash in s.codes ==> CodeOk(s, c.hash);
  }

  lemma BindSpends(s: State, i: nat, c: Call, way: Way, luck: Luck)
    ensures var s' := AfterBind(s, i, c, way, luck); s.binds <= s'.binds && s'.spent == s.spent && s'.issued == s.issued
  {
  }

  lemma SetIssues(s: State, s': State, i: nat, luck: Luck)
    requires Inv(s) && CallStep(s, s', i, luck) && s.calls[i].at.SendSet?
    ensures Grown(s, s')
  {
    assert CallOk(s, i, s.calls[i]);
  }

  lemma ReadGrows(s: State, s': State, i: nat, luck: Luck)
    requires CallStep(s, s', i, luck) && ReadsOnly(s.calls[i])
    ensures Grown(s, s')
  {
    assert s' == Put(s, i, AfterRead(s, s.calls[i], luck));
  }

  lemma CallStepGrows(s: State, s': State, i: nat, luck: Luck)
    requires Inv(s) && CallStep(s, s', i, luck)
    ensures Grown(s, s')
  {
    var c := s.calls[i];
    if ReadsOnly(c) {
      ReadGrows(s, s', i, luck);
      return;
    }
    match c.at
    case SendSet => SetIssues(s, s', i, luck);
    case InVerify => VerifySpends(s, i, c);
    case UpConsume => ConsumeSpends(s, i, c);
    case InBind => BindSpends(s, i, c, ByVerifyLogin, luck);
    case UpBind => BindSpends(s, i, c, ByConsume, luck);
    case _ =>
  }

  lemma OtherStepGrows(s: State, s': State)
    requires (exists i, c :: StartStep(s, s', i, c)) || OutsideStep(s, s')
    ensures Grown(s, s')
  {}

  lemma StepGrows(s: State, s': State)
    requires Inv(s) && Step(s, s')
    ensures Grown(s, s')
  {
    if i, luck :| CallStep(s, s', i, luck) {
      CallStepGrows(s, s', i, luck);
    } else {
      OtherStepGrows(s, s');
    }
  }

  lemma SpentIsGone(s: State, h: string)
    requires CodesOk(s) && h in s.spent
    ensures h !in s.codes
  {
    assert forall x | x in s.codes :: CodeOk(s, x);
  }

  /** Nothing of the history of s is lost or changed in s'. */
  predicate Grown(s: State, s': State) {
    && s.binds <= s'.binds
    && (forall h | h in s.spent :: h in s'.spent && s'.spent[h] == s.spent[h])
    && (forall h | h in s.issued :: h in s'.issued && s'.issued[h] == s.issued[h])
  }

  lemma GrowsOn(run: seq<State>, n: nat)
    requires IsRun(run) && n + 1 < |run|
    ensures Grown(run[n], run[n + 1])
  {
    RunKeepsInv(run, n);
    assert StepsOn(run, n);
    StepGrows(run[n], run[n + 1]);
  }

  lemma {:induction false} HistoryGrows(run: seq<State>, m: nat, n: nat)
    requires IsRun(run) && m <= n < |run|
    ensures Grown(run[m], run[n])
    decreases n
  {
    if m < n {
      HistoryGrows(run, m, n - 1);
      GrowsOn(run, n - 1);
    }
  }

  /** A spent record never comes back, and its spender never changes; binds are never forgotten. */
  lemma SpentForGood(run: seq<State>, m: nat, n: nat, h: string)
    requires IsRun(run) && m <= n < |run|
    ensures run[m].binds <= run[n].binds
    ensures h in run[m].spent ==> h in run[n].spent && run[n].spent[h] == run[m].spent[h] && h !in run[n].codes
  {
    HistoryGrows(run, m, n);
    RunKeepsInv(run, n);
    if h in run[n].spent { SpentIsGone(run[n], h); }
  }

  // ---- What a call may report ----

  ghost predicate Bound(s: State, i: nat, pending: bool) {
    exists m | 0 <= m < |s.binds| :: s.binds[m].spent.call == i && s.binds[m].pending == pending
  }

  ghost predicate OutcomeOk(s: State, i: nat, c: Call) {
    && (c.outcome.Authorized? ==> Bound(s, i, false))
    && (c.outcome.PasswordNeeded? ==> Bound(s, i, true))
    && (!c.outcome.Authorized? && !c.outcome.PasswordNeeded? && !c.outcome.BindFailed? ==>
          !Bound(s, i, false) && !Bound(s, i, true))
    && (!c.at.Finished? ==> c.outcome.Running?)
  }

  ghost predicate OutcomesOk(s: State) {
    forall i | i in s.calls :: OutcomeOk(s, i, s.calls[i])
  }

  lemma BoundGrows(s: State, s': State, i: nat, pending: bool)
    requires |s'.binds| == |s.binds| + 1 && s'.binds[..|s.binds|] == s.binds
    requires s'.binds[|s.binds|].spent.call == i && s'.binds[|s.binds|].pending == pending
    ensures forall j, p | j != i :: Bound(s', j, p) == Bound(s, j, p)
    ensures Bound(s', i, pending)
  {
    assert forall m | 0 <= m < |s.binds| :: s'.binds[m] == s.binds[m];
    forall j, p | j != i ensures Bound(s', j, p) == Bound(s, j, p) {
      if Bound(s, j, p) {
        var m :| 0 <= m < |s.binds| && s.binds[m].spent.call == j && s.binds[m].pending == p;
        assert s'.binds[m] == s.binds[m];
      }
    }
  }

  lemma CallStepKeepsOutcomes(s: State, s': State, i: nat, luck: Luck)
    requires OutcomesOk(s) && CallStep(s, s', i, luck)
    ensures OutcomesOk(s')
  {
    assert OutcomeOk(s, i, s.calls[i]);
    if Binding(s.calls[i]) {
      BindStepBinds(s, s', i, luck);
      BoundGrows(s, s', i, s.calls[i].pending);
    } else {
      OtherStepBindsNothing(s, s', i, luck);
      assert forall j, p :: Bound(s', j, p) == Bound(s, j, p);
    }
    forall j | j in s'.calls && j != i ensures OutcomeOk(s', j, s'.calls[j]) {
      assert OutcomeOk(s, j, s.calls[j]);
    }
  }

  lemma StartKeepsOutcomes(s: State, s': State, i: nat, c: Call)
    requires BindsOk(s) && OutcomesOk(s) && StartStep(s, s', i, c)
    ensures OutcomesOk(s')
  {
    assert forall j, p :: Bound(s', j, p) == Bound(s, j, p);
    assert forall m | 0 <= m < |s.binds| :: BindOk(s, s.binds[m]);
    forall j | j in s'.calls ensures OutcomeOk(s', j, s'.calls[j]) {
      if j != i { assert OutcomeOk(s, j, s.calls[j]); }
    }
  }

  lemma OutsideKeepsOutcomes(s: State, s': State)
    requires OutcomesOk(s) && OutsideStep(s, s')
    ensures OutcomesOk(s')
  {
    assert forall j, p :: Bound(s', j, p) == Bound(s, j, p);
    forall j | j in s'.calls ensures OutcomeOk(s', j, s'.calls[j]) {
      assert OutcomeOk(s, j, s.calls[j]);
    }
  }

  lemma StepKeepsOutcomes(s: State, s': State)
    requires BindsOk(s) && OutcomesOk(s) && Step(s, s')
    ensures OutcomesOk(s')
  {
    if i, luck :| CallStep(s, s', i, luck) {
      CallStepKeepsOutcomes(s, s', i, luck);
    } else if i, c :| StartStep(s, s', i, c) {
      StartKeepsOutcomes(s, s', i, c);
    } else {
      OutsideKeepsOutcomes(s, s');
    }
  }

  lemma {:induction false} RunKeepsOutcomes(run: seq<State>, n: nat)
    requires IsRun(run) && n < |run|
    ensures OutcomesOk(run[n])
  {
    if n > 0 {
      RunKeepsInv(run, n - 1);
      RunKeepsOutcomes(run, n - 1);
      assert StepsOn(run, n - 1);
      StepKeepsOutcomes(run[n - 1], run[n]);
    }
  }

  /**
   A call that reports an authorized login bound the account without a pending password, one
   that asks for the password bound it pending, and one that reports any failure before the
   Bind bound nothing.
   */
  lemma OutcomesMatchBinds(run: seq<State>, n: nat, i: nat)
    requires IsRun(run) && n < |run| && i in run[n].calls
    ensures
      var s, o := run[n], run[n].calls[i].outcome;
      && (o.Authorized? ==> Bound(s, i, false))
      && (o.PasswordNeeded? ==> Bound(s, i, true))
      && (o.CodeInvalid? || o.CodeExpired? || o.SignUpRequired? || o.CreateFailed? || o.Running? ==>
            forall m | 0 <= m < |s.binds| :: s.binds[m].spent.call != i)
  {
    RunKeepsOutcomes(run, n);
    assert OutcomeOk(run[n], i, run[n].calls[i]);
    forall m | 0 <= m < |run[n].binds| && run[n].binds[m].spent.call == i
      ensures Bound(run[n], i, run[n].binds[m].pending)
    {
    }
  }

  // ---- A hash can authorize whoever holds the phone by then ----

  lemma OneStepOn(run: seq<State>, s': State)
    requires IsRun(run) && Step(run[|run| - 1], s')
    ensures IsRun(run + [s'])
  {
    var on := run + [s'];
    forall n | 0 <= n < |on| - 1 ensures StepsOn(on, n) {
      assert on[n] == run[n] && (n + 1 < |run| ==> on[n + 1] == run[n + 1] && StepsOn(run, n));
    }
  }

  /** The next step of call i. */
  lemma Go(run: seq<State>, i: nat) returns (on: seq<State>)
    requires IsRun(run) && i in run[|run| - 1].calls && !run[|run| - 1].calls[i].at.Finished?
    ensures IsRun(on) && on[|on| - 1] == After(run[|run| - 1], i, run[|run| - 1].calls[i], Luck(true, 1))
  {
    var s := run[|run| - 1];
    var s' := After(s, i, s.calls[i], Luck(true, 1));
    assert CallStep(s, s', i, Luck(true, 1));
    OneStepOn(run, s');
    on := run + [s'];
  }

  lemma Start(run: seq<State>, i: nat, at: Point, hash: string, phone: string, code: string) returns (on: seq<State>)
    requires IsRun(run) && i !in run[|run| - 1].calls && (at.InGet? || at.UpGet? || (at.SendOwner? && hash !in run[|run| - 1].used))
    ensures
      var s := run[|run| - 1];
      var c := Call(at, hash, phone, code, PhoneCode(0, false, phone, code, 0, 0), 0, Missing, 0, false, Running);
      IsRun(on) && on[|on| - 1] == Put(s, i, c).(used := if at.SendOwner? then s.used + {hash} else s.used)
  {
    var s := run[|run| - 1];
    var c := Call(at, hash, phone, code, PhoneCode(0, false, phone, code, 0, 0), 0, Missing, 0, false, Running);
    var s' := Put(s, i, c).(used := if at.SendOwner? then s.used + {hash} else s.used);
    assert StartStep(s, s', i, c);
    OneStepOn(run, s');
    on := run + [s'];
  }

  /** A code is issued for the account that owns the phone. */
  lemma CodeIsSent(hash: string, phone: string, code: string, owner: int) returns (run: seq<State>)
    requires owner != 0
    ensures IsRun(run)
    ensures
      var s := run[|run| - 1];
      && s.codes == s.issued == map[hash := PhoneCode(owner, false, phone, code, 0, 0)]
      && s.owners == map[phone := owner] && s.passwords == {} && s.calls.Keys == {0} && s.binds == []
  {
    run := [State(map[], map[phone := owner], {}, map[], {}, map[], map[], [], [])];
    run := Start(run, 0, SendOwner, hash, phone, code);
    run := Go(run, 0);
    run := Go(run, 0);
  }

  /** The owner signs in, and the code is about to be verified. */
  lemma OwnerTypesCode(hash: string, phone: string, code: string, owner: int) returns (run: seq<State>)
    requires owner != 0
    ensures IsRun(run)
    ensures
      var s := run[|run| - 1];
      && s.codes == s.issued == map[hash := PhoneCode(owner, false, phone, code, 0, 0)]
      && s.owners == map[phone := owner] && s.passwords == {} && s.binds == []
      && 1 in s.calls && s.calls[1].at == InVerify && s.calls[1].owner == owner
      && s.calls[1].phone == phone && s.calls[1].hash == hash && s.calls[1].code == code
  {
    run := CodeIsSent(hash, phone, code, owner);
    run := Start(run, 1, InGet, hash, phone, code);
    run := Go(run, 1);
    run := Go(run, 1);
  }

  /** The owner signs in with the right code and has been confirmed, but not yet looked up again. */
  lemma OwnerIsConfirmed(hash: string, phone: string, code: string, owner: int) returns (run: seq<State>)
    requires owner != 0
    ensures IsRun(run)
    ensures
      var s := run[|run| - 1];
      && hash in s.issued && s.issued[hash].issuedUser == owner
      && s.owners == map[phone := owner] && s.passwords == {} && s.binds == []
      && 1 in s.calls && s.calls[1].at.InLookup? && s.calls[1].phone == phone && s.calls[1].hash == hash
  {
    run := OwnerTypesCode(hash, phone, code, owner);
    run := Go(run, 1);
    assert run[|run| - 1].calls[1].at.InConfirm?;
    run := Go(run, 1);
  }

  /**
   When the phone changes hands between the confirmation and the last lookup, the hash binds
   the new owner: an account it was not issued for.
   */
  lemma LaterOwnerIsBound(hash: string, phone: string, code: string, owner: int, later: int) returns (run: seq<State>)
    requires owner != 0 && later != 0 && later != owner
    ensures IsRun(run)
    ensures
      var s := run[|run| - 1];
      && |s.binds| == 1 && s.binds[0].hash == hash && s.binds[0].user == later
      && hash in s.issued && s.issued[hash].issuedUser == owner
  {
    run := OwnerIsConfirmed(hash, phone, code, owner);
    var s := run[|run| - 1];
    var s' := s.(owners := map[phone := later]);
    assert OutsideStep(s, s');
    OneStepOn(run, s');
    run := run + [s'];
    run := Go(run, 1);
    assert run[|run| - 1].calls[1].at.InPassword? && run[|run| - 1].calls[1].user == later;
    run := Go(run, 1);
    run := Go(run, 1);
  }

  // ---- Both ways lead to a login ----

  /** The right code, sent to the phone's owner, logs the owner in when nothing interferes. */
  lemma OwnerIsBound(hash: string, phone: string, code: string, owner: int) returns (run: seq<State>)
    requires owner != 0
    ensures IsRun(run)
    ensures
      var s := run[|run| - 1];
      && 1 in s.calls && s.calls[1].outcome == Authorized
      && |s.binds| == 1 && s.binds[0].hash == hash && s.binds[0].user == owner && s.binds[0].spent.way == ByVerifyLogin
  {
    run := OwnerIsConfirmed(hash, phone, code, owner);
    run := Go(run, 1);
    assert run[|run| - 1].calls[1].at.InPassword? && run[|run| - 1].calls[1].user == owner;
    run := Go(run, 1);
    run := Go(run, 1);
  }

  /** A code is issued for a phone that nobody owns, and a sign-in starts. */
  lemma NewcomerSignsIn(hash: string, phone: string, code: string) returns (run: seq<State>)
    ensures IsRun(run)
    ensures
      var s := run[|run| - 1];
      && s.codes == map[hash := PhoneCode(0, false, phone, code, 0, 0)]
      && s.owners == map[] && s.binds == [] && s.calls.Keys == {0, 1}
      && s.calls[1] == Call(InGet, hash, phone, code, PhoneCode(0, false, phone, code, 0, 0), 0, Missing, 0, false, Running)
  {
    run := [State(map[], map[], {}, map[], {}, map[], map[], [], [])];
    run := Start(run, 0, SendOwner, hash, phone, code);
    run := Go(run, 0);
    run := Go(run, 0);
    run := Start(run, 1, InGet, hash, phone, code);
  }

  /** The right code is accepted, and its record marked. */
  lemma NewcomerIsVerified(hash: string, phone: string, code: string) returns (run: seq<State>)
    ensures IsRun(run)
    ensures
      var s := run[|run| - 1];
      && s.codes == map[hash := PhoneCode(0, true, phone, code, 0, 0)]
      && s.owners == map[] && s.binds == [] && s.calls.Keys == {0, 1}
      && s.calls[1].at == InConfirm && s.calls[1].phone == phone && s.calls[1].owner == 0 && s.calls[1].verdict == Accepted
  {
    run := NewcomerSignsIn(hash, phone, code);
    run := Go(run, 1);
    run := Go(run, 1);
    assert run[|run| - 1].calls[1].at.InVerify?;
    run := Go(run, 1);
  }

  /** The sign-in asks for a sign-up, and the sign-up starts. */
  lemma NewcomerSignsUp(hash: string, phone: string, code: string) returns (run: seq<State>)
    ensures IsRun(run)
    ensures
      var s := run[|run| - 1];
      && s.codes == map[hash := PhoneCode(0, true, phone, code, 0, 0)]
      && s.owners == map[] && s.binds == [] && s.calls.Keys == {0, 1, 2} && s.calls[1].outcome == SignUpRequired
      && s.calls[2] == Call(UpGet, hash, phone, code, PhoneCode(0, false, phone, code, 0, 0), 0, Missing, 0, false, Running)
  {
    run := NewcomerIsVerified(hash, phone, code);
    run := Go(run, 1);
    run := Start(run, 2, UpGet, hash, phone, code);
  }

  /** The sign-up takes the record. */
  lemma NewcomerConsumes(hash: string, phone: string, code: string) returns (run: seq<State>)
    ensures IsRun(run)
    ensures
      var s := run[|run| - 1];
      && s.owners == map[] && s.binds == [] && 1 in s.calls && s.calls[1].outcome == SignUpRequired
      && 2 in s.calls && s.calls[2].at == UpConfirm && s.calls[2].phone == phone && s.calls[2].hash == hash && !s.calls[2].pending
  {
    run := NewcomerSignsUp(hash, phone, code);
    run := Go(run, 2);
    run := Go(run, 2);
    assert run[|run| - 1].calls[2].at.UpConsume?;
    run := Go(run, 2);
  }

  /** A newcomer is asked to sign up, and signing up creates the account and binds it. */
  lemma NewcomerIsBound(hash: string, phone: string, code: string) returns (run: seq<State>)
    ensures IsRun(run)
    ensures
      var s := run[|run| - 1];
      && 1 in s.calls && s.calls[1].outcome == SignUpRequired
      && 2 in s.calls && s.calls[2].outcome == Authorized && phone in s.owners
      && |s.binds| == 1 && s.binds[0].hash == hash && s.binds[0].user == s.owners[phone] && s.binds[0].spent.way == ByConsume
  {
    run := NewcomerConsumes(hash, phone, code);
    run := Go(run, 2);
    assert run[|run| - 1].calls[2].at.UpCreate?;
    run := Go(run, 2);
    run := Go(run, 2);
  }
}
