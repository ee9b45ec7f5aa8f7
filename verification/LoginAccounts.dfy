/**
 Which account a hash logs in. A call's past is read back from the run: how it came to where
 it is, step by step, and what the stores held at each of those steps.
 */
module LoginAccounts {
  import opened Wrappers
  import opened LoginRuns
  import opened LoginInvariant
  import opened LoginResults

  // ---- Reading a run backwards ----

  lemma ReadStep(s: State, s': State, i: nat, luck: Luck)
    requires CallStep(s, s', i, luck) && ReadsOnly(s.calls[i])
    ensures i in s'.calls && s' == Put(s, i, AfterRead(s, s.calls[i], luck)) && s'.calls[i] == AfterRead(s, s.calls[i], luck)
  {
  }

  lemma TakeStep(s: State, s': State, i: nat, luck: Luck)
    requires CallStep(s, s', i, luck) && (s.calls[i].at.InVerify? || s.calls[i].at.UpConsume?)
    ensures i in s'.calls && s'.calls == s.calls[i := s'.calls[i]]
    ensures var at := s'.calls[i].at; at.InConfirm? || at.UpConfirm? || at.Finished?
  {
  }

  lemma CreateStep(s: State, s': State, i: nat, luck: Luck)
    requires CallStep(s, s', i, luck) && s.calls[i].at.UpCreate?
    ensures i in s'.calls && s'.calls == s.calls[i := s'.calls[i]]
    ensures
      || s'.calls[i].at.Finished?
      || (s'.calls[i] == s.calls[i].(at := UpBind, user := s'.calls[i].user)
          && s.calls[i].phone !in s.owners && s'.owners == s.owners[s.calls[i].phone := s'.calls[i].user])
  {
  }

  lemma WriteStep(s: State, s': State, i: nat, luck: Luck)
    requires CallStep(s, s', i, luck) && !ReadsOnly(s.calls[i]) && !s.calls[i].at.UpCreate?
    ensures i in s'.calls && s'.calls == s.calls[i := s'.calls[i]]
    ensures var at := s'.calls[i].at; at.SendDeliver? || at.InConfirm? || at.UpConfirm? || at.Finished?
  {
    if s.calls[i].at.InVerify? || s.calls[i].at.UpConsume? { TakeStep(s, s', i, luck); }
  }

  lemma OthersStay(s: State, s': State, i: nat, j: nat, luck: Luck)
    requires CallStep(s, s', j, luck) && i != j
    ensures i in s'.calls <==> i in s.calls
    ensures i in s.calls ==> s'.calls[i] == s.calls[i]
  {
    if ReadsOnly(s.calls[j]) { ReadStep(s, s', j, luck); }
    else if s.calls[j].at.UpCreate? { CreateStep(s, s', j, luck); }
    else { WriteStep(s, s', j, luck); }
  }

  ghost predicate Moves(s: State, s': State, i: nat) { exists luck :: CallStep(s, s', i, luck) }

  lemma CallMoves(s: State, s': State, i: nat, j: nat, luck: Luck)
    requires CallStep(s, s', j, luck) && i in s'.calls
    ensures i in s.calls && (s'.calls[i] == s.calls[i] || Moves(s, s', i))
  {
    if i != j { OthersStay(s, s', i, j, luck); }
  }

  lemma StepMoves(s: State, s': State, i: nat)
    requires Step(s, s') && i in s'.calls && !Begins(s'.calls[i])
    ensures i in s.calls && (s'.calls[i] == s.calls[i] || Moves(s, s', i))
  {
    if j, luck :| CallStep(s, s', j, luck) { CallMoves(s, s', i, j, luck); }
  }

  lemma RunMoves(run: seq<State>, n: nat, i: nat)
    requires IsRun(run) && n + 1 < |run| && i in run[n + 1].calls && !Begins(run[n + 1].calls[i])
    ensures i in run[n].calls && (run[n + 1].calls[i] == run[n].calls[i] || Moves(run[n], run[n + 1], i))
  {
    assert StepsOn(run, n);
    StepMoves(run[n], run[n + 1], i);
  }

  /** The last change of a value that only changes where moved says so. */
  lemma {:induction false} LastChange(at: nat -> Option<Call>, moved: nat -> bool, n: nat) returns (k: nat)
    requires at(0).None? && at(n).Some? && !Begins(at(n).value)
    requires forall x | 0 <= x < n && at(x + 1).Some? && !Begins(at(x + 1).value) :: at(x) == at(x + 1) || moved(x)
    ensures k < n && moved(k) && at(k + 1) == at(n)
    decreases n
  {
    if moved(n - 1) {
      k := n - 1;
    } else {
      assert at(n - 1) == at(n - 1 + 1);
      k := LastChange(at, moved, n - 1);
    }
  }

  function CallAt(run: seq<State>, i: nat, x: nat): Option<Call> {
    if x < |run| && i in run[x].calls then Some(run[x].calls[i]) else None
  }

  /** The last step of a call that is past its beginning. */
  lemma LastMove(run: seq<State>, n: nat, i: nat) returns (k: nat)
    requires IsRun(run) && n < |run| && i in run[n].calls && !Begins(run[n].calls[i])
    ensures k < n && i in run[k + 1].calls && run[k + 1].calls[i] == run[n].calls[i] && Moves(run[k], run[k + 1], i)
  {
    var at: nat -> Option<Call> := (x: nat) => CallAt(run, i, x);
    var moved: nat -> bool := (x: nat) => x + 1 < |run| && Moves(run[x], run[x + 1], i);
    forall x | 0 <= x < n && at(x + 1).Some? && !Begins(at(x + 1).value) ensures at(x) == at(x + 1) || moved(x) {
      RunMoves(run, x, i);
    }
    k := LastChange(at, moved, n);
  }

  /** The event a step of a binding call adds. */
  ghost predicate Recorded(s: State, i: nat, e: BindEvent) {
    && i in s.calls && Binding(s.calls[i])
    && var c := s.calls[i];
    e == BindEvent(c.hash, c.phone, c.user, c.pending, c.owner, Spent(if c.at.InBind? then ByVerifyLogin else ByConsume, i))
  }

  lemma EventOf(s: State, s': State, i: nat, luck: Luck)
    requires CallStep(s, s', i, luck) && Binding(s.calls[i])
    ensures |s'.binds| == |s.binds| + 1 && forall m | 0 <= m < |s.binds| :: s'.binds[m] == s.binds[m]
    ensures Recorded(s, s'.binds[|s.binds|].spent.call, s'.binds[|s.binds|])
  {
    var c := s.calls[i];
    assert s' == AfterBind(s, i, c, if c.at.InBind? then ByVerifyLogin else ByConsume, luck);
  }

  lemma CallRecords(s: State, s': State, i: nat, luck: Luck, m: nat)
    requires CallStep(s, s', i, luck) && OutcomesOk(s) && m < |s'.binds|
    ensures (m < |s.binds| && s'.binds[m] == s.binds[m]) || Recorded(s, s'.binds[m].spent.call, s'.binds[m])
  {
    assert OutcomeOk(s, i, s.calls[i]);
    if Binding(s.calls[i]) { EventOf(s, s', i, luck); } else { OtherStepBindsNothing(s, s', i, luck); }
  }

  lemma StepRecords(s: State, s': State, m: nat)
    requires Step(s, s') && OutcomesOk(s) && m < |s'.binds|
    ensures (m < |s.binds| && s'.binds[m] == s.binds[m]) || Recorded(s, s'.binds[m].spent.call, s'.binds[m])
  {
    if i, luck :| CallStep(s, s', i, luck) { CallRecords(s, s', i, luck, m); }
  }

  lemma RunRecords(run: seq<State>, n: nat, m: nat)
    requires IsRun(run) && n + 1 < |run| && m < |run[n + 1].binds|
    ensures
      || (m < |run[n].binds| && run[n + 1].binds[m] == run[n].binds[m])
      || Recorded(run[n], run[n + 1].binds[m].spent.call, run[n + 1].binds[m])
  {
    RunKeepsOutcomes(run, n);
    assert StepsOn(run, n);
    StepRecords(run[n], run[n + 1], m);
  }

  /** The step that recorded an event. */
  lemma {:induction false} BindStepOf(run: seq<State>, n: nat, m: nat) returns (b: nat)
    requires IsRun(run) && n < |run| && m < |run[n].binds|
    ensures b < n && Recorded(run[b], run[n].binds[m].spent.call, run[n].binds[m])
    decreases n
  {
    assert n > 0;
    RunRecords(run, n - 1, m);
    if Recorded(run[n - 1], run[n].binds[m].spent.call, run[n].binds[m]) {
      b := n - 1;
    } else {
      b := BindStepOf(run, n - 1, m);
    }
  }

  // ---- Where each point is reached from ----

  lemma ReadsInto(s: State, c: Call, luck: Luck)
    requires ReadsOnly(c) && !c.at.Finished?
    ensures
      var c' := AfterRead(s, c, luck);
      && !c'.at.UpBind?
      && (c'.at.InBind? ==> c.at.InPassword? && c' == c.(at := InBind, pending := c.user in s.passwords))
      && (c'.at.InPassword? ==> c.at.InLookup? && c.phone in s.owners && c' == c.(at := InPassword, user := s.owners[c.phone]))
      && (c'.at.InLookup? ==> c.at.InConfirm? && c.owner == Owner(s, c.phone) && c' == c.(at := InLookup))
  {
  }

  lemma StepsInto(s: State, s': State, i: nat, luck: Luck)
    requires CallStep(s, s', i, luck)
    ensures
      && i in s'.calls
      && var c, c' := s.calls[i], s'.calls[i];
      && (c'.at.InBind? ==> c.at.InPassword? && c' == c.(at := InBind, pending := c.user in s.passwords))
      && (c'.at.InPassword? ==> c.at.InLookup? && c.phone in s.owners && c' == c.(at := InPassword, user := s.owners[c.phone]))
      && (c'.at.InLookup? ==> c.at.InConfirm? && c.owner == Owner(s, c.phone) && c' == c.(at := InLookup))
      && (c'.at.UpBind? ==> c.at.UpCreate? && c.phone !in s.owners && c'.phone == c.phone && s'.owners == s.owners[c.phone := c'.user])
  {
    if ReadsOnly(s.calls[i]) {
      ReadStep(s, s', i, luck);
      ReadsInto(s, s.calls[i], luck);
    } else if s.calls[i].at.UpCreate? {
      CreateStep(s, s', i, luck);
    } else {
      WriteStep(s, s', i, luck);
    }
  }

  lemma MovesInto(s: State, s': State, i: nat)
    requires Moves(s, s', i)
    ensures
      && i in s.calls && i in s'.calls
      && var c, c' := s.calls[i], s'.calls[i];
      && (c'.at.InBind? ==> c.at.InPassword? && c' == c.(at := InBind, pending := c.user in s.passwords))
      && (c'.at.InPassword? ==> c.at.InLookup? && c.phone in s.owners && c' == c.(at := InPassword, user := s.owners[c.phone]))
      && (c'.at.InLookup? ==> c.at.InConfirm? && c.owner == Owner(s, c.phone) && c' == c.(at := InLookup))
      && (c'.at.UpBind? ==> c.at.UpCreate? && c.phone !in s.owners && c'.phone == c.phone && s'.owners == s.owners[c.phone := c'.user])
  {
    var luck :| CallStep(s, s', i, luck);
    StepsInto(s, s', i, luck);
  }

  // ---- The account a hash binds ----

  /** Call i takes its step at this point from state k to state k + 1. */
  ghost predicate StepsAt(run: seq<State>, k: nat, i: nat, at: Point) {
    k + 1 < |run| && i in run[k].calls && run[k].calls[i].at == at && Moves(run[k], run[k + 1], i)
  }

  /** How far along a call is. */
  function Rank(at: Point): nat {
    match at
    case SendOwner => 0 case SendSet => 1 case SendDeliver => 2 case SendRollback => 3
    case InGet => 0 case InOwner => 1 case InVerify => 2 case InConfirm => 3 case InLookup => 4 case InPassword => 5 case InBind => 6
    case UpGet => 0 case UpOwner => 1 case UpConsume => 2 case UpConfirm => 3 case UpCreate => 4 case UpBind => 5
    case Drop => 7
    case Finished => 8
  }

  lemma ReadRises(s: State, c: Call, luck: Luck)
    requires ReadsOnly(c) && !c.at.Finished?
    ensures Rank(AfterRead(s, c, luck).at) > Rank(c.at)
  {
  }

  lemma EndRises(s: State, s': State, i: nat, luck: Luck)
    requires CallStep(s, s', i, luck)
    requires var at := s.calls[i].at; at.SendSet? || at.SendRollback? || at.Drop? || at.InBind? || at.UpBind?
    ensures i in s'.calls && Rank(s'.calls[i].at) > Rank(s.calls[i].at)
  {
  }

  lemma CallRises(s: State, s': State, i: nat, luck: Luck)
    requires CallStep(s, s', i, luck)
    ensures i in s'.calls && Rank(s'.calls[i].at) > Rank(s.calls[i].at)
  {
    var c := s.calls[i];
    if ReadsOnly(c) {
      ReadStep(s, s', i, luck);
      ReadRises(s, c, luck);
    } else if c.at.InVerify? || c.at.UpConsume? {
      TakeStep(s, s', i, luck);
    } else if c.at.UpCreate? {
      CreateStep(s, s', i, luck);
    } else {
      EndRises(s, s', i, luck);
    }
  }

  function RankAt(run: seq<State>, i: nat, x: nat): nat {
    if x < |run| && i in run[x].calls then Rank(run[x].calls[i].at) else 0
  }

  lemma CallKeepsRank(s: State, s': State, i: nat, j: nat, luck: Luck)
    requires CallStep(s, s', j, luck) && i in s.calls
    ensures i in s'.calls && Rank(s'.calls[i].at) >= Rank(s.calls[i].at)
  {
    if i == j { CallRises(s, s', i, luck); } else { OthersStay(s, s', i, j, luck); }
  }

  lemma StepKeepsRank(s: State, s': State, i: nat)
    requires Step(s, s') && i in s.calls
    ensures i in s'.calls && Rank(s'.calls[i].at) >= Rank(s.calls[i].at)
  {
    if j, luck :| CallStep(s, s', j, luck) { CallKeepsRank(s, s', i, j, luck); }
  }

  lemma RunKeepsRank(run: seq<State>, i: nat, k: nat)
    requires IsRun(run) && k + 1 < |run|
    ensures RankAt(run, i, k) <= RankAt(run, i, k + 1)
  {
    assert StepsOn(run, k);
    if i in run[k].calls { StepKeepsRank(run[k], run[k + 1], i); }
  }

  lemma {:induction false} NeverFalls(rank: nat -> nat, x: nat, y: nat)
    requires x <= y && forall k | x <= k < y :: rank(k) <= rank(k + 1)
    ensures rank(x) <= rank(y)
    decreases y
  {
    if x < y {
      NeverFalls(rank, x, y - 1);
      assert rank(y - 1) <= rank(y - 1 + 1);
    }
  }

  lemma RankGrows(run: seq<State>, i: nat, x: nat, y: nat)
    requires IsRun(run) && x <= y < |run|
    ensures RankAt(run, i, x) <= RankAt(run, i, y)
  {
    var rank: nat -> nat := (k: nat) => RankAt(run, i, k);
    forall k | x <= k < y ensures rank(k) <= rank(k + 1) { RunKeepsRank(run, i, k); }
    NeverFalls(rank, x, y);
  }

  lemma StepRaises(run: seq<State>, k: nat, i: nat, at: Point)
    requires StepsAt(run, k, i, at)
    ensures RankAt(run, i, k) == Rank(at) < RankAt(run, i, k + 1)
  {
    var luck :| CallStep(run[k], run[k + 1], i, luck);
    CallRises(run[k], run[k + 1], i, luck);
  }

  lemma RankStaysAbove(run: seq<State>, i: nat, x: nat, y: nat, r: nat)
    requires IsRun(run) && x < y < |run| && r < RankAt(run, i, x + 1)
    ensures r < RankAt(run, i, y)
  {
    RankGrows(run, i, x + 1, y);
  }

  lemma IsBeyond(run: seq<State>, x: nat, y: nat, i: nat, at: Point)
    requires IsRun(run) && StepsAt(run, x, i, at) && x < y < |run|
    ensures Rank(at) < RankAt(run, i, y)
  {
    StepRaises(run, x, i, at);
    RankStaysAbove(run, i, x, y, Rank(at));
  }

  /** A call takes its step at each point once at most: the step of a run at a point is one and no other. */
  lemma StepsOnce(run: seq<State>, x: nat, y: nat, i: nat, at: Point)
    requires IsRun(run) && StepsAt(run, x, i, at) && StepsAt(run, y, i, at)
    ensures x == y
  {
    if x < y { IsBeyond(run, x, y, i, at); }
    if y < x { IsBeyond(run, y, x, i, at); }
  }

  /**
   The account a sign-in binds is whoever owns the phone the hash was issued for when the call
   looks it up for the last time (k), after having found the account of the hash there when it
   confirmed it (j). So the hash binds the account it was issued for exactly when the phone has
   the same owner at both of these steps, and the login awaits a password exactly when the
   account had one when the call asked (l).
   */
  lemma SignInBindsLastOwner(run: seq<State>, n: nat, m: nat) returns (j: nat, k: nat, l: nat)
    requires IsRun(run) && n < |run| && m < |run[n].binds| && run[n].binds[m].spent.way.ByVerifyLogin?
    ensures run[n].binds[m].hash in run[n].issued
    ensures
      var e := run[n].binds[m];
      var i, phone, issued := e.spent.call, run[n].issued[e.hash].phone, run[n].issued[e.hash].issuedUser;
      && j < k < l < n
      && StepsAt(run, j, i, InConfirm) && StepsAt(run, k, i, InLookup) && StepsAt(run, l, i, InPassword)
      && Owner(run[j], phone) == issued != 0
      && Owner(run[k], phone) == e.user != 0
      && (e.user == issued <==> Owner(run[j], phone) == Owner(run[k], phone))
      && (e.pending <==> e.user in run[l].passwords)
  {
    var e := run[n].binds[m];
    var i := e.spent.call;
    RunKeepsInv(run, n);
    assert BindOk(run[n], e);
    var b := BindStepOf(run, n, m);
    l := LastMove(run, b, i);
    MovesInto(run[l], run[l + 1], i);
    assert StepsAt(run, l, i, InPassword);
    k := LastMove(run, l, i);
    MovesInto(run[k], run[k + 1], i);
    assert StepsAt(run, k, i, InLookup);
    RunKeepsInv(run, k);
    j := LastMove(run, k, i);
    MovesInto(run[j], run[j + 1], i);
    assert StepsAt(run, j, i, InConfirm);
  }

  lemma {:induction false} SameOwner(run: seq<State>, phone: string, j: nat, k: nat)
    requires j <= k < |run| && forall x | j <= x < k :: Owner(run[x], phone) == Owner(run[x + 1], phone)
    ensures Owner(run[j], phone) == Owner(run[k], phone)
    decreases k
  {
    if j < k {
      SameOwner(run, phone, j, k - 1);
      assert Owner(run[k - 1], phone) == Owner(run[k - 1 + 1], phone);
    }
  }

  /** While its phone keeps its owner, a hash binds no other account than the one it was issued for. */
  lemma SteadyPhoneBindsItsOwner(run: seq<State>, n: nat, m: nat)
    requires IsRun(run) && n < |run| && m < |run[n].binds| && run[n].binds[m].spent.way.ByVerifyLogin?
    requires forall x | 0 <= x < n :: Owner(run[x], run[n].binds[m].phone) == Owner(run[x + 1], run[n].binds[m].phone)
    ensures run[n].binds[m].hash in run[n].issued && run[n].binds[m].user == run[n].issued[run[n].binds[m].hash].issuedUser
  {
    RunKeepsInv(run, n);
    assert BindOk(run[n], run[n].binds[m]);
    var j, k, l := SignInBindsLastOwner(run, n, m);
    SameOwner(run, run[n].binds[m].phone, j, k);
  }

  /** The account a sign-up binds is the one it created, for the phone the hash was issued for, when nobody owned it. */
  lemma SignUpBindsWhomItCreated(run: seq<State>, n: nat, m: nat) returns (k: nat)
    requires IsRun(run) && n < |run| && m < |run[n].binds| && run[n].binds[m].spent.way.ByConsume?
    ensures run[n].binds[m].hash in run[n].issued
    ensures
      var e := run[n].binds[m];
      var phone := run[n].issued[e.hash].phone;
      && k + 1 < n && StepsAt(run, k, e.spent.call, UpCreate)
      && phone !in run[k].owners && run[k + 1].owners == run[k].owners[phone := e.user]
  {
    var e := run[n].binds[m];
    RunKeepsInv(run, n);
    assert BindOk(run[n], e);
    var b := BindStepOf(run, n, m);
    k := LastMove(run, b, e.spent.call);
    MovesInto(run[k], run[k + 1], e.spent.call);
    assert StepsAt(run, k, e.spent.call, UpCreate);
  }
}
