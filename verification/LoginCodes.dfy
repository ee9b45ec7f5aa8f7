/**
 What a login code decides: which code a hash was issued with, what a sign-in with another
 code gets, and that nobody gets past the check without the code that was issued.
 */
module LoginCodes {
  import opened CodeStores
  import opened LoginRuns
  import opened LoginInvariant
  import opened LoginResults
  import opened LoginAccounts

  // ---- Single steps ----

  predicate SameArgs(c: Call, d: Call) { c.hash == d.hash && c.phone == d.phone && c.code == d.code }

  lemma ReadKeepsArgs(s: State, c: Call, luck: Luck)
    ensures SameArgs(c, AfterRead(s, c, luck))
  {
  }

  lemma VerifyKeepsArgs(s: State, i: nat, c: Call)
    ensures var s' := AfterVerifyLogin(s, i, c); i in s'.calls && SameArgs(c, s'.calls[i]) && s'.calls[i].at.InConfirm?
    ensures AfterVerifyLogin(s, i, c).calls[i].outcome == c.outcome
  {
  }

  lemma ConsumeKeepsArgs(s: State, i: nat, c: Call)
    ensures var s' := AfterConsume(s, i, c); i in s'.calls && SameArgs(c, s'.calls[i])
    ensures
      var c' := AfterConsume(s, i, c).calls[i];
      && (c'.at.UpConfirm? || c'.at.Finished?)
      && (c'.at.UpConfirm? ==> Consumable(s.codes, c.hash, c.phone))
      && (c'.at.Finished? ==> !c'.outcome.SignUpRequired?)
      && (c'.at.UpConfirm? ==> c'.outcome == c.outcome)
  {
  }

  lemma TakeKeepsArgs(s: State, s': State, i: nat, luck: Luck)
    requires CallStep(s, s', i, luck) && (s.calls[i].at.InVerify? || s.calls[i].at.UpConsume?)
    ensures i in s'.calls && SameArgs(s.calls[i], s'.calls[i])
    ensures
      var c, c' := s.calls[i], s'.calls[i];
      && (c'.at.InConfirm? || c'.at.UpConfirm? || c'.at.Finished?)
      && (c'.outcome.SignUpRequired? ==> c.outcome.SignUpRequired?)
      && (c'.at.InConfirm? ==> c.at.InVerify?)
      && (c'.at.UpConfirm? ==> c.at.UpConsume? && Consumable(s.codes, c.hash, c.phone))
  {
    if s.calls[i].at.InVerify? {
      assert s' == AfterVerifyLogin(s, i, s.calls[i]);
      VerifyKeepsArgs(s, i, s.calls[i]);
    } else {
      assert s' == AfterConsume(s, i, s.calls[i]);
      ConsumeKeepsArgs(s, i, s.calls[i]);
    }
  }

  /** What a step that writes a store but takes no record makes of its call. */
  predicate Proceeds(c: Call, c': Call) {
    && SameArgs(c, c')
    && (c'.at.SendDeliver? || c'.at.UpBind? || c'.at.Finished?)
    && (c'.outcome.SignUpRequired? ==> c.outcome.SignUpRequired?)
  }

  lemma SetProceeds(s: State, s': State, i: nat, luck: Luck)
    requires CallStep(s, s', i, luck) && s.calls[i].at.SendSet?
    ensures i in s'.calls && Proceeds(s.calls[i], s'.calls[i])
  {
  }

  lemma DropProceeds(s: State, s': State, i: nat, luck: Luck)
    requires CallStep(s, s', i, luck) && (s.calls[i].at.SendRollback? || s.calls[i].at.Drop?)
    ensures i in s'.calls && Proceeds(s.calls[i], s'.calls[i])
  {
  }

  lemma CreateProceeds(s: State, s': State, i: nat, luck: Luck)
    requires CallStep(s, s', i, luck) && s.calls[i].at.UpCreate?
    ensures i in s'.calls && Proceeds(s.calls[i], s'.calls[i])
  {
  }

  lemma BindProceeds(s: State, s': State, i: nat, luck: Luck)
    requires CallStep(s, s', i, luck) && Binding(s.calls[i])
    ensures i in s'.calls && Proceeds(s.calls[i], s'.calls[i])
  {
    AfterBindRecords(s, i, s.calls[i], if s.calls[i].at.InBind? then ByVerifyLogin else ByConsume, luck);
  }

  lemma PutProceeds(s: State, s': State, i: nat, luck: Luck)
    requires CallStep(s, s', i, luck) && !ReadsOnly(s.calls[i]) && !s.calls[i].at.InVerify? && !s.calls[i].at.UpConsume?
    ensures i in s'.calls && Proceeds(s.calls[i], s'.calls[i])
  {
    if Binding(s.calls[i]) { BindProceeds(s, s', i, luck); }
    else if s.calls[i].at.UpCreate? { CreateProceeds(s, s', i, luck); }
    else if s.calls[i].at.SendSet? { SetProceeds(s, s', i, luck); }
    else { DropProceeds(s, s', i, luck); }
  }

  lemma CallStepKeepsArgs(s: State, s': State, i: nat, luck: Luck)
    requires CallStep(s, s', i, luck)
    ensures i in s'.calls && SameArgs(s.calls[i], s'.calls[i])
  {
    if ReadsOnly(s.calls[i]) {
      ReadStep(s, s', i, luck);
      ReadKeepsArgs(s, s.calls[i], luck);
    } else if s.calls[i].at.InVerify? || s.calls[i].at.UpConsume? {
      TakeKeepsArgs(s, s', i, luck);
    } else {
      PutProceeds(s, s', i, luck);
    }
  }

  lemma StepKeepsArgs(s: State, s': State, i: nat)
    requires Step(s, s') && i in s.calls
    ensures i in s'.calls && SameArgs(s.calls[i], s'.calls[i])
  {
    if j, luck :| CallStep(s, s', j, luck) {
      if i == j { CallStepKeepsArgs(s, s', i, luck); } else { OthersStay(s, s', i, j, luck); }
    }
  }

  lemma {:induction false} ArgsKept(run: seq<State>, x: nat, y: nat, i: nat)
    requires IsRun(run) && x <= y < |run| && i in run[x].calls
    ensures i in run[y].calls && SameArgs(run[x].calls[i], run[y].calls[i])
    decreases y
  {
    if x < y {
      ArgsKept(run, x, y - 1, i);
      assert StepsOn(run, y - 1);
      StepKeepsArgs(run[y - 1], run[y], i);
    }
  }

  /** VerifyLogin accepts the stored code, counts a mismatch for any other, and misses what is not there. */
  lemma VerifyDecides(s: State, s': State, i: nat)
    requires Moves(s, s', i) && s.calls[i].at.InVerify?
    ensures i in s'.calls && s'.calls[i] == s.calls[i].(at := InConfirm, verdict := s'.calls[i].verdict)
    ensures
      var c, verdict := s.calls[i], s'.calls[i].verdict;
      && (verdict.Accepted? <==> c.hash in s.codes && s.codes[c.hash].phone == c.phone && s.codes[c.hash].code == c.code)
      && (verdict.Invalid? <==> c.hash in s.codes && s.codes[c.hash].phone == c.phone && s.codes[c.hash].code != c.code)
      && s'.misses == (if verdict.Invalid? then s.misses + [c.hash] else s.misses)
      && (verdict.Missing? ==> s'.codes == s.codes)
  {
  }

  lemma AcceptedTakesOrMarks(s: State, s': State, i: nat)
    requires Moves(s, s', i) && s.calls[i].at.InVerify? && i in s'.calls && s'.calls[i].verdict.Accepted?
    ensures
      var c := s.calls[i];
      && c.hash in s.codes
      && (c.owner != 0 ==> c.hash !in s'.codes && c.hash in s'.spent && s'.spent[c.hash] == Spent(ByVerifyLogin, i))
      && (c.owner == 0 ==> c.hash in s'.codes && s'.codes[c.hash] == s.codes[c.hash].(signUpVerified := true))
  {
  }

  lemma ReadLeadsInto(s: State, c: Call, luck: Luck)
    requires ReadsOnly(c) && !c.at.Finished?
    ensures
      var c' := AfterRead(s, c, luck);
      && !c'.at.InConfirm? && !c'.at.UpConfirm?
      && (c'.at.InLookup? ==> c.at.InConfirm? && c.verdict.Accepted?)
      && (c'.at.UpCreate? ==> c.at.UpConfirm?)
      && (c'.at.SendSet? ==> c.at.SendOwner?)
      && (c'.at.SendSet? ==> c'.rec == PhoneCode(Owner(s, c.phone), false, c.phone, c.code, 0, c.rec.maxAttempts))
      && (c'.outcome.SignUpRequired? && !c.outcome.SignUpRequired? ==>
            || (c.at.InOwner? && c.rec.code == c.code)
            || (c.at.InConfirm? && c.verdict.Accepted?)
            || c.at.InLookup?)
  {
  }

  lemma WriteLeadsInto(s: State, s': State, i: nat, luck: Luck)
    requires CallStep(s, s', i, luck) && !ReadsOnly(s.calls[i])
    ensures i in s'.calls
    ensures
      var c, c' := s.calls[i], s'.calls[i];
      && !c'.at.InLookup? && !c'.at.UpCreate? && !c'.at.SendSet?
      && (c'.outcome.SignUpRequired? ==> c.outcome.SignUpRequired?)
      && (c'.at.InConfirm? ==> c.at.InVerify?)
      && (c'.at.UpConfirm? ==> c.at.UpConsume? && Consumable(s.codes, c.hash, c.phone))
  {
    if s.calls[i].at.InVerify? || s.calls[i].at.UpConsume? {
      TakeKeepsArgs(s, s', i, luck);
    } else {
      PutProceeds(s, s', i, luck);
    }
  }

  /** Where a call that has just stepped comes from. */
  lemma LeadsInto(s: State, s': State, i: nat)
    requires Moves(s, s', i)
    ensures i in s.calls && i in s'.calls
    ensures
      var c, c' := s.calls[i], s'.calls[i];
      && (c'.at.InConfirm? ==> c.at.InVerify?)
      && (c'.at.InLookup? ==> c.at.InConfirm? && c.verdict.Accepted?)
      && (c'.at.UpCreate? ==> c.at.UpConfirm?)
      && (c'.at.UpConfirm? ==> c.at.UpConsume? && Consumable(s.codes, c.hash, c.phone))
      && (c'.at.SendSet? ==> c.at.SendOwner?)
      && (c'.at.SendSet? ==> c'.rec == PhoneCode(Owner(s, c.phone), false, c.phone, c.code, 0, c.rec.maxAttempts))
      && (c'.outcome.SignUpRequired? && !c.outcome.SignUpRequired? ==>
            || (c.at.InOwner? && c.rec.code == c.code)
            || (c.at.InConfirm? && c.verdict.Accepted?)
            || c.at.InLookup?)
  {
    var luck :| CallStep(s, s', i, luck);
    if ReadsOnly(s.calls[i]) {
      ReadStep(s, s', i, luck);
      ReadLeadsInto(s, s.calls[i], luck);
    } else {
      WriteLeadsInto(s, s', i, luck);
    }
  }

  // ---- The record a hash is issued with ----

  lemma RecordOfSet(run: seq<State>, x: nat, i: nat) returns (k: nat)
    requires IsRun(run) && x < |run| && i in run[x].calls && run[x].calls[i].at.SendSet?
    ensures k < x && StepsAt(run, k, i, SendOwner)
    ensures
      var c := run[x].calls[i];
      c.rec == PhoneCode(Owner(run[k], c.phone), false, c.phone, c.code, 0, c.rec.maxAttempts)
  {
    k := LastMove(run, x, i);
    LeadsInto(run[k], run[k + 1], i);
    ArgsKept(run, k, x, i);
    assert StepsAt(run, k, i, SendOwner);
  }

  lemma CallIssues(s: State, s': State, i: nat, luck: Luck, h: string)
    requires CallStep(s, s', i, luck) && h in s'.issued && h !in s.issued
    ensures s.calls[i].at.SendSet? && s.calls[i].hash == h && s'.issued[h] == s.calls[i].rec
  {
    if ReadsOnly(s.calls[i]) { ReadStep(s, s', i, luck); }
  }

  /**
   Every hash was issued by a SendCode with that hash: its record has the phone and the code of
   that call, and the owner the call had found for the phone; nothing is counted or marked yet.
   */
  lemma {:induction false} IssuedAsSent(run: seq<State>, n: nat, h: string) returns (k: nat, o: nat, i: nat)
    requires IsRun(run) && n < |run| && h in run[n].issued
    ensures o < k < n && StepsAt(run, o, i, SendOwner) && StepsAt(run, k, i, SendSet) && run[k].calls[i].hash == h
    ensures
      var c, rec := run[k].calls[i], run[n].issued[h];
      rec == PhoneCode(Owner(run[o], c.phone), false, c.phone, c.code, 0, rec.maxAttempts)
  {
    assert n > 0;
    GrowsOn(run, n - 1);
    if h in run[n - 1].issued {
      k, o, i := IssuedAsSent(run, n - 1, h);
    } else {
      assert StepsOn(run, n - 1);
      var j, luck :| CallStep(run[n - 1], run[n], j, luck);
      CallIssues(run[n - 1], run[n], j, luck, h);
      k, i := n - 1, j;
      o := RecordOfSet(run, k, i);
    }
  }

  // ---- The code decides ----

  /** The VerifyLogin whose verdict a call is about to act on. */
  lemma VerifiedBy(run: seq<State>, y: nat, i: nat) returns (v: nat)
    requires IsRun(run) && y < |run| && i in run[y].calls && run[y].calls[i].at.InConfirm?
    ensures v < y && StepsAt(run, v, i, InVerify) && i in run[v + 1].calls && run[v + 1].calls[i] == run[y].calls[i]
  {
    v := LastMove(run, y, i);
    LeadsInto(run[v], run[v + 1], i);
    assert StepsAt(run, v, i, InVerify);
  }

  lemma StoredIsIssued(run: seq<State>, n: nat, h: string)
    requires IsRun(run) && n < |run| && h in run[n].codes
    ensures h in run[n].issued && SameOrigin(run[n].codes[h], run[n].issued[h])
  {
    RunKeepsInv(run, n);
    assert CodeOk(run[n], h);
  }

  lemma ConfirmEnds(s: State, s': State, i: nat)
    requires Moves(s, s', i) && s.calls[i].at.InConfirm?
    ensures i in s'.calls
    ensures
      var c, c' := s.calls[i], s'.calls[i];
      if Owner(s, c.phone) != c.owner then c'.at.Drop?
      else if c.verdict.Missing? then c' == End(c, CodeExpired)
      else if c.verdict.Invalid? then c' == End(c, CodeInvalid)
      else if c.owner == 0 then c' == End(c, SignUpRequired)
      else c' == c.(at := InLookup)
  {
  }

  /**
   A sign-in whose owner has not changed meanwhile expires if its record was gone when it
   verified its code, is refused and counted if its code was not the issued one, and else is
   asked to sign up or goes on to its account. A call whose owner has changed is dropped.
   */
  lemma AnswerFollowsCode(run: seq<State>, y: nat, i: nat) returns (v: nat)
    requires IsRun(run) && StepsAt(run, y, i, InConfirm)
    ensures v < y && StepsAt(run, v, i, InVerify) && i in run[y + 1].calls
    ensures
      var s, c, c' := run[v], run[v].calls[i], run[y + 1].calls[i];
      if Owner(run[y], c.phone) != c.owner then c'.at.Drop?
      else if c.hash !in s.codes || s.codes[c.hash].phone != c.phone then c'.outcome == CodeExpired && run[v + 1].codes == s.codes
      else
        && c.hash in s.issued
        && if s.issued[c.hash].code != c.code then c'.outcome == CodeInvalid && run[v + 1].misses == s.misses + [c.hash]
           else run[v + 1].misses == s.misses && if c.owner == 0 then c'.outcome == SignUpRequired else c'.at.InLookup?
  {
    v := VerifiedBy(run, y, i);
    VerifyDecides(run[v], run[v + 1], i);
    ConfirmEnds(run[y], run[y + 1], i);
    if run[v].calls[i].hash in run[v].codes { StoredIsIssued(run, v, run[v].calls[i].hash); }
  }

  /** An accepted verdict means that the call has the issued code. */
  lemma AcceptedHasCode(run: seq<State>, y: nat, n: nat, i: nat)
    requires IsRun(run) && y <= n < |run| && i in run[y].calls && run[y].calls[i].at.InConfirm? && run[y].calls[i].verdict.Accepted?
    ensures i in run[n].calls && run[n].calls[i].hash in run[n].issued
    ensures run[n].calls[i].code == run[n].issued[run[n].calls[i].hash].code
  {
    var v := VerifiedBy(run, y, i);
    VerifyDecides(run[v], run[v + 1], i);
    StoredIsIssued(run, v, run[v].calls[i].hash);
    HistoryGrows(run, v, n);
    ArgsKept(run, v, n, i);
  }

  lemma LookupHasCode(run: seq<State>, k: nat, n: nat, i: nat)
    requires IsRun(run) && k <= n < |run| && i in run[k].calls && run[k].calls[i].at.InLookup?
    ensures i in run[n].calls && run[n].calls[i].hash in run[n].issued
    ensures run[n].calls[i].code == run[n].issued[run[n].calls[i].hash].code
  {
    var j := LastMove(run, k, i);
    LeadsInto(run[j], run[j + 1], i);
    AcceptedHasCode(run, j, n, i);
  }

  /** Nobody is logged in through VerifyLogin without the code the hash was issued with. */
  lemma SignInHasTheCode(run: seq<State>, n: nat, m: nat)
    requires IsRun(run) && n < |run| && m < |run[n].binds| && run[n].binds[m].spent.way.ByVerifyLogin?
    ensures
      var e := run[n].binds[m];
      && e.spent.call in run[n].calls && run[n].calls[e.spent.call].hash == e.hash && e.hash in run[n].issued
      && run[n].calls[e.spent.call].code == run[n].issued[e.hash].code
  {
    var e := run[n].binds[m];
    var j, k, l := SignInBindsLastOwner(run, n, m);
    LookupHasCode(run, k, n, e.spent.call);
    var b := BindStepOf(run, n, m);
    ArgsKept(run, b, n, e.spent.call);
  }

  /** Nor is anybody asked to sign up. */
  lemma SignUpIsAskedOfCode(run: seq<State>, n: nat, i: nat)
    requires IsRun(run) && n < |run| && i in run[n].calls && run[n].calls[i].outcome.SignUpRequired?
    ensures run[n].calls[i].hash in run[n].issued && run[n].calls[i].code == run[n].issued[run[n].calls[i].hash].code
  {
    var k := LastMove(run, n, i);
    LeadsInto(run[k], run[k + 1], i);
    RunKeepsOutcomes(run, k);
    assert OutcomeOk(run[k], i, run[k].calls[i]);
    var c := run[k].calls[i];
    if c.at.InOwner? {
      RunKeepsInv(run, k);
      assert CallOk(run[k], i, c);
      HistoryGrows(run, k, n);
      ArgsKept(run, k, n, i);
    } else if c.at.InConfirm? {
      AcceptedHasCode(run, k, n, i);
    } else {
      LookupHasCode(run, k, n, i);
    }
  }

  // ---- Marked records ----

  lemma CallMarks(s: State, s': State, i: nat, luck: Luck, h: string)
    requires CallStep(s, s', i, luck) && h in s'.codes && s'.codes[h].signUpVerified && (h in s.codes ==> !s.codes[h].signUpVerified)
    ensures
      var c := s.calls[i];
      && c.hash == h
      && (c.at.SendSet? ==> c.rec == s'.codes[h])
      && (c.at.SendSet?
          || (c.at.InVerify? && c.owner == 0 && h in s.codes && s.codes[h].phone == c.phone && s.codes[h].code == c.code))
  {
    if ReadsOnly(s.calls[i]) { ReadStep(s, s', i, luck); }
  }

  lemma StepMarks(s: State, s': State, h: string) returns (i: nat)
    requires Step(s, s') && h in s'.codes && s'.codes[h].signUpVerified && (h in s.codes ==> !s.codes[h].signUpVerified)
    ensures Moves(s, s', i)
    ensures
      var c := s.calls[i];
      && c.hash == h
      && (c.at.SendSet? ==> c.rec == s'.codes[h])
      && (c.at.SendSet?
          || (c.at.InVerify? && c.owner == 0 && h in s.codes && s.codes[h].phone == c.phone && s.codes[h].code == c.code))
  {
    var j, luck :| CallStep(s, s', j, luck);
    CallMarks(s, s', j, luck, h);
    i := j;
  }

  /** A marked record was marked by a sign-in with its very code, for a phone nobody owned then. */
  lemma {:induction false} MarkedByCode(run: seq<State>, n: nat, h: string) returns (v: nat, i: nat)
    requires IsRun(run) && n < |run| && h in run[n].codes && run[n].codes[h].signUpVerified
    ensures v < n && StepsAt(run, v, i, InVerify) && h in run[n].issued
    ensures
      var c := run[v].calls[i];
      c.hash == h && c.owner == 0 && c.phone == run[n].issued[h].phone && c.code == run[n].issued[h].code
  {
    assert n > 0;
    GrowsOn(run, n - 1);
    StoredIsIssued(run, n, h);
    if h in run[n - 1].codes { StoredIsIssued(run, n - 1, h); }
    if h in run[n - 1].codes && run[n - 1].codes[h].signUpVerified {
      v, i := MarkedByCode(run, n - 1, h);
    } else {
      assert StepsOn(run, n - 1);
      i := StepMarks(run[n - 1], run[n], h);
      if run[n - 1].calls[i].at.SendSet? {
        var k := RecordOfSet(run, n - 1, i);
        assert false;
      }
      v := n - 1;
      assert StepsAt(run, v, i, InVerify);
    }
  }

  /**
   Nobody is signed up without the code either: the record a sign-up consumed had been marked
   by a sign-in with the code and the phone the hash was issued with.
   */
  lemma SignUpFollowsTheCode(run: seq<State>, n: nat, m: nat) returns (u: nat, v: nat, i: nat)
    requires IsRun(run) && n < |run| && m < |run[n].binds| && run[n].binds[m].spent.way.ByConsume?
    ensures run[n].binds[m].hash in run[n].issued
    ensures v < u < n && StepsAt(run, u, run[n].binds[m].spent.call, UpConsume) && StepsAt(run, v, i, InVerify)
    ensures
      var c, e := run[v].calls[i], run[n].binds[m];
      && c.hash == e.hash && c.owner == 0
      && c.phone == run[n].issued[e.hash].phone && c.code == run[n].issued[e.hash].code
  {
    var e := run[n].binds[m];
    var call := e.spent.call;
    var b := BindStepOf(run, n, m);
    RunKeepsInv(run, n);
    assert BindOk(run[n], e);
    var k := SignUpBindsWhomItCreated(run, n, m);
    var j := LastMove(run, k, call);
    LeadsInto(run[j], run[j + 1], call);
    u := LastMove(run, j, call);
    LeadsInto(run[u], run[u + 1], call);
    assert StepsAt(run, u, call, UpConsume);
    ArgsKept(run, u, n, call);
    ArgsKept(run, b, n, call);
    v, i := MarkedByCode(run, u, e.hash);
    HistoryGrows(run, u, n);
  }

  // ---- Codes that nobody may use ----

  lemma GoneStaysInCall(s: State, s': State, i: nat, luck: Luck, h: string)
    requires Inv(s) && CallStep(s, s', i, luck) && h in s.issued && h !in s.codes
    ensures h !in s'.codes
  {
    assert CallOk(s, i, s.calls[i]);
    if ReadsOnly(s.calls[i]) {
      ReadStep(s, s', i, luck);
    } else if s.calls[i].at.InVerify? {
      GoneStaysInVerify(s, i, s.calls[i], h);
    } else if s.calls[i].at.UpConsume? {
      GoneStaysInConsume(s, i, s.calls[i], h);
    }
  }

  lemma GoneStaysInVerify(s: State, i: nat, c: Call, h: string)
    requires h !in s.codes
    ensures h !in AfterVerifyLogin(s, i, c).codes
  {
  }

  lemma GoneStaysInConsume(s: State, i: nat, c: Call, h: string)
    requires h !in s.codes
    ensures h !in AfterConsume(s, i, c).codes
  {
  }

  lemma GoneStays(s: State, s': State, h: string)
    requires Inv(s) && Step(s, s') && h in s.issued && h !in s.codes
    ensures h !in s'.codes
  {
    if i, luck :| CallStep(s, s', i, luck) { GoneStaysInCall(s, s', i, luck, h); }
  }

  /** A record that has left the store never comes back. */
  lemma {:induction false} GoneForGood(run: seq<State>, m: nat, n: nat, h: string)
    requires IsRun(run) && m <= n < |run| && h in run[m].issued && h !in run[m].codes
    ensures h in run[n].issued && h !in run[n].codes
    decreases n
  {
    if m < n {
      GoneForGood(run, m, n - 1, h);
      GoneNext(run, n - 1, h);
    }
  }

  lemma GoneNext(run: seq<State>, n: nat, h: string)
    requires IsRun(run) && n + 1 < |run| && h in run[n].issued && h !in run[n].codes
    ensures h in run[n + 1].issued && h !in run[n + 1].codes
  {
    GrowsOn(run, n);
    RunKeepsInv(run, n);
    assert StepsOn(run, n);
    GoneStays(run[n], run[n + 1], h);
  }

  lemma DropRemoves(s: State, s': State, i: nat)
    requires Moves(s, s', i) && (s.calls[i].at.Drop? || s.calls[i].at.SendRollback?)
    ensures i in s'.calls && s'.calls[i] == End(s.calls[i], if s.calls[i].at.Drop? then CodeInvalid else DeliveryFailed)
    ensures s.calls[i].hash !in s'.codes && s'.issued == s.issued
  {
  }

  /** A code that could not be delivered, or whose phone was seen to change hands, can never be used again. */
  lemma DroppedForGood(run: seq<State>, k: nat, n: nat, i: nat)
    requires IsRun(run) && k < n < |run| && (StepsAt(run, k, i, Drop) || StepsAt(run, k, i, SendRollback))
    ensures run[k].calls[i].hash !in run[n].codes
    ensures i in run[k + 1].calls && (run[k + 1].calls[i].outcome.CodeInvalid? || run[k + 1].calls[i].outcome.DeliveryFailed?)
  {
    RunKeepsInv(run, k);
    assert CallOk(run[k], i, run[k].calls[i]);
    DropRemoves(run[k], run[k + 1], i);
    GoneForGood(run, k + 1, n, run[k].calls[i].hash);
  }

  /** Nor one whose delivery was reported as failed. */
  lemma UndeliveredIsUseless(run: seq<State>, n: nat, i: nat)
    requires IsRun(run) && n < |run| && i in run[n].calls && run[n].calls[i].outcome.DeliveryFailed?
    ensures run[n].calls[i].hash !in run[n].codes
  {
    var k := LastMove(run, n, i);
    RunKeepsOutcomes(run, k);
    assert OutcomeOk(run[k], i, run[k].calls[i]);
    FailsFrom(run[k], run[k + 1], i);
    assert StepsAt(run, k, i, SendRollback);
    DroppedForGood(run, k, n, i);
    ArgsKept(run, k, n, i);
  }

  lemma ReadNeverFails(s: State, c: Call, luck: Luck)
    requires ReadsOnly(c) && c.outcome.Running?
    ensures !AfterRead(s, c, luck).outcome.DeliveryFailed?
  {
  }

  lemma TakeNeverFails(s: State, i: nat, c: Call)
    requires c.outcome.Running?
    ensures AfterVerifyLogin(s, i, c).calls[i].outcome.Running?
    ensures !AfterConsume(s, i, c).calls[i].outcome.DeliveryFailed?
  {
  }

  lemma WriteNeverFails(s: State, s': State, i: nat, luck: Luck)
    requires CallStep(s, s', i, luck) && s.calls[i].outcome.Running?
    requires var at := s.calls[i].at; at.SendSet? || at.Drop? || at.UpCreate?
    ensures i in s'.calls && !s'.calls[i].outcome.DeliveryFailed?
  {
  }

  /** Only an undone delivery is reported as failed. */
  lemma FailsFrom(s: State, s': State, i: nat)
    requires Moves(s, s', i) && s.calls[i].outcome.Running? && i in s'.calls && s'.calls[i].outcome.DeliveryFailed?
    ensures s.calls[i].at.SendRollback?
  {
    var luck :| CallStep(s, s', i, luck);
    var c := s.calls[i];
    if ReadsOnly(c) {
      ReadStep(s, s', i, luck);
      ReadNeverFails(s, c, luck);
    } else if c.at.InVerify? || c.at.UpConsume? {
      TakeNeverFails(s, i, c);
    } else if Binding(c) {
      AfterBindRecords(s, i, c, if c.at.InBind? then ByVerifyLogin else ByConsume, luck);
    } else if !c.at.SendRollback? {
      WriteNeverFails(s, s', i, luck);
    }
  }

  /** What a call does that finds the phone's owner changed: it drops the code, or at the last check just refuses. */
  lemma ChangedHands(s: State, s': State, i: nat)
    requires Moves(s, s', i)
    ensures i in s'.calls
    ensures
      var c, c' := s.calls[i], s'.calls[i];
      && (c.at.InOwner? ==> (c'.at.Drop? <==> Owner(s, c.phone) != c.rec.issuedUser))
      && (c.at.InConfirm? ==> (c'.at.Drop? <==> Owner(s, c.phone) != c.owner))
      && (c.at.UpOwner? ==> (c'.at.Drop? <==> Owner(s, c.phone) != 0))
      && (c.at.UpConfirm? ==> (c' == End(c, CodeInvalid) <==> Owner(s, c.phone) != 0))
      && (c.at.SendDeliver? ==> c'.at.SendRollback? || c' == End(c, CodeSent))
  {
    var luck :| CallStep(s, s', i, luck);
    if ReadsOnly(s.calls[i]) { ReadStep(s, s', i, luck); } else { CallStepKeepsArgs(s, s', i, luck); }
  }
}
