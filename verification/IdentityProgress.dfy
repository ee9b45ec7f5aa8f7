/**
 That the transactions do not only avoid waiting in a circle but get on: some transaction can
 always take its next step, and from every reachable state all of them can be run to their end.
 */
module IdentityProgress {
  import opened AuthTables
  import opened IdentityLocks
  import opened IdentityInvariant
  import opened IdentityDeadlock
  import AuthStores
  import IdentityResults

  // ---- A choice the database can make ----

  lemma Member<T>(s: set<T>) returns (x: T)
    requires s != {}
    ensures x in s
  {
    assert (forall x :: x !in s) ==> s == {};
    x :| x in s;
  }

  lemma {:induction false} Least(s: set<int>) returns (m: int)
    requires s != {}
    ensures m in s && forall x | x in s :: m <= x
    decreases s
  {
    m := Member(s);
    var rest := s - {m};
    assert s == rest + {m};
    if rest != {} {
      var k := Least(rest);
      if k < m { m := k; }
    }
  }

  lemma {:induction false} SortedSet(s: set<int>) returns (q: seq<int>)
    ensures StrictlySorted(q) && forall x :: x in q <==> x in s
    decreases s
  {
    if s == {} {
      q := [];
    } else {
      var m := Least(s);
      var rest := SortedSet(s - {m});
      q := [m] + rest;
      forall i, j | 0 <= i < j < |q| ensures q[i] < q[j] {
        assert q[j] == rest[j - 1] && rest[j - 1] in s - {m};
        if i > 0 { assert q[i] == rest[i - 1]; }
      }
      forall x ensures x in q <==> x in s { assert x in q <==> x == m || x in rest; }
    }
  }

  /** There are gates for any identities. */
  lemma SomeGates(h: KeyId -> int, ids: seq<KeyId>) returns (gates: seq<int>)
    ensures GatesOf(h, ids, gates)
  {
    var hashes := set k | k in ids :: h(k);
    gates := SortedSet(hashes);
    forall k | k in ids ensures h(k) in gates {
      var x := h(k);
      assert x in hashes;
      assert x in gates;
    }
    forall g | g in gates ensures exists k | k in ids :: h(k) == g {
      assert g in hashes;
      HashOfSome(h, ids, hashes, g);
    }
  }

  lemma HashOfSome(h: KeyId -> int, ids: seq<KeyId>, hashes: set<int>, g: int)
    requires hashes == (set k | k in ids :: h(k)) && g in hashes
    ensures exists k | k in ids :: h(k) == g
  {
  }

  lemma SomeCandidates(t: Tables, job: Job) returns (candidates: seq<KeyId>)
    requires Revokes(job)
    ensures job.RevokeByUserExcept? ==> StrictlySorted(candidates) && forall k :: k in candidates <==> Selected(t, job, k)
    ensures job.RevokeByHash? ==>
      && |candidates| <= 1
      && (candidates == [] <==> forall k | k in t.auths :: !Selected(t, job, k))
      && (forall k | k in candidates :: Selected(t, job, k))
  {
    if job.RevokeByUserExcept? {
      var selected := set k | k in t.auths && Selected(t, job, k);
      candidates := SortedSet(selected);
    } else if k :| k in t.auths && Selected(t, job, k) {
      candidates := [k];
    } else {
      candidates := [];
    }
  }

  /** Whatever a transaction is about to do, there is a choice to do it with. */
  lemma SomeChoice(h: KeyId -> int, t: Tables, tx: Tx) returns (c: Choice)
    ensures Sensible(h, t, tx, c)
  {
    var lock := UserGate(0);
    if tx.phase.Begin? {
      match tx.job
      case Bind(key, _, _) =>
        var gates := SomeGates(h, [key]);
        c := Choice([key], gates, lock);
      case DeleteKey(raw) =>
        var hint := HintOf(t, raw);
        var gates := SomeGates(h, if hint.HasIdentity() then [hint.Identity(raw)] else []);
        c := Choice([raw], gates, lock);
      case _ =>
        var candidates := SomeCandidates(t, tx.job);
        var gates := SomeGates(h, candidates);
        c := Choice(candidates, gates, lock);
    } else {
      if tx.phase.Statement? && tx.phase.locksLeft != {} {
        lock := Member(tx.phase.locksLeft);
      }
      c := Choice([], [], lock);
    }
  }

  lemma NeedsWanted(t: Tables, tx: Tx, c: Choice)
    requires tx.phase.Statement? && tx.phase.locksLeft != {} ==> c.lock in tx.phase.locksLeft
    ensures Needs(t, tx, c) <= Wants(t, tx)
  {
  }

  /** Who waits for nobody can take a step. */
  lemma FreeToStep(h: KeyId -> int, s: State, j: TxId) returns (s': State, c: Choice)
    requires j in s.txs && !s.txs[j].phase.Done? && forall b :: !Waits(s, j, b)
    ensures TxStep(h, s, s', j, c)
  {
    c := SomeChoice(h, s.tables, s.txs[j]);
    NeedsWanted(s.tables, s.txs[j], c);
    forall i | i in s.txs && i != j ensures s.txs[i].held !! Needs(s.tables, s.txs[j], c) {
      assert !Waits(s, j, i);
    }
    s' := State(Effect(s.tables, s.txs[j]), s.txs[j := After(s.tables, s.txs[j], c)]);
  }

  /** While a transaction is unfinished, in any state of any run, some transaction can take its next step. */
  lemma SomeoneSteps(h: KeyId -> int, run: seq<State>, n: nat, i: TxId) returns (j: TxId, c: Choice, s': State)
    requires IsRun(h, run) && n < |run|
    requires i in run[n].txs && !run[n].txs[i].phase.Done?
    ensures TxStep(h, run[n], s', j, c)
  {
    NeverStuck(h, run, n, i);
    j :| j in run[n].txs && !run[n].txs[j].phase.Done? && forall b :: !Waits(run[n], j, b);
    s', c := FreeToStep(h, run[n], j);
  }

  // ---- How much a transaction has left ----

  function AttemptsLeft(tx: Tx): nat { if tx.attempt < MAX_ATTEMPTS then MAX_ATTEMPTS - tx.attempt else 0 }

  function PhasesLeft(tx: Tx): nat {
    match tx.phase
    case Begin => 12
    case TakeUserRow => 11
    case TakeGates(_) => 10
    case TakeRows(_) => 9
    case Recheck => 8
    case TakePermanentRow => 7
    case TakeWatermark => 7
    case TakeRetention => 6
    case Doom => 5
    case Statement(_) => 4
    case Rollback(_) => 3
    case Done(_) => 0
  }

  function StepsLeft(tx: Tx): nat {
    match tx.phase
    case TakeGates(n) => if n < |tx.gates| then |tx.gates| - n else 0
    case TakeRows(n) => if n < |tx.rows| then |tx.rows| - n else 0
    case Statement(left) => |left|
    case _ => 0
  }

  predicate Fewer(a: nat, p: nat, n: nat, a': nat, p': nat, n': nat) {
    a' < a || (a' == a && (p' < p || (p' == p && n' < n)))
  }

  /** Every step leaves less to do: an attempt, a phase of it, or a gate, row or lock of the phase. */
  lemma StepLeavesLess(h: KeyId -> int, t: Tables, tx: Tx, c: Choice)
    requires Shape(h, tx) && !tx.phase.Done? && Sensible(h, t, tx, c)
    ensures
      var tx' := After(t, tx, c);
      Fewer(AttemptsLeft(tx), PhasesLeft(tx), StepsLeft(tx), AttemptsLeft(tx'), PhasesLeft(tx'), StepsLeft(tx'))
  {
    match tx.phase
    case TakeRows(n) => RowLeavesLess(t, tx);
    case Statement(left) => LockLeavesLess(t, tx, c);
    case _ =>
  }

  lemma RowLeavesLess(t: Tables, tx: Tx)
    requires tx.phase.TakeRows?
    ensures
      var tx' := AfterRow(t, tx);
      AttemptsLeft(tx') == AttemptsLeft(tx) && (PhasesLeft(tx') < PhasesLeft(tx) || (PhasesLeft(tx') == PhasesLeft(tx) && StepsLeft(tx') < StepsLeft(tx)))
  {
  }

  lemma LockLeavesLess(t: Tables, tx: Tx, c: Choice)
    requires tx.phase.Statement? && (tx.phase.locksLeft != {} ==> c.lock in tx.phase.locksLeft)
    ensures
      var tx' := AfterStatement(t, tx, c);
      AttemptsLeft(tx') == AttemptsLeft(tx) && (PhasesLeft(tx') < PhasesLeft(tx) || (PhasesLeft(tx') == PhasesLeft(tx) && StepsLeft(tx') < StepsLeft(tx)))
  {
    var left := tx.phase.locksLeft;
    if left != {} { assert |left - {c.lock}| < |left|; }
  }

  // ---- How much all of them have left ----

  function Total(f: Tx -> nat, txs: map<TxId, Tx>, ids: seq<TxId>): nat
    requires forall i | i in ids :: i in txs
  {
    if ids == [] then 0 else f(txs[ids[0]]) + Total(f, txs, ids[1..])
  }

  predicate Distinct(ids: seq<TxId>) { forall i, j | 0 <= i < j < |ids| :: ids[i] != ids[j] }

  lemma {:induction false} TotalElsewhere(f: Tx -> nat, txs: map<TxId, Tx>, ids: seq<TxId>, i: TxId, tx: Tx)
    requires (forall k | k in ids :: k in txs) && i !in ids
    ensures Total(f, txs[i := tx], ids) == Total(f, txs, ids)
  {
    if ids != [] { TotalElsewhere(f, txs, ids[1..], i, tx); }
  }

  /** A change of one transaction changes a total by as much. */
  lemma {:induction false} TotalChanges(f: Tx -> nat, txs: map<TxId, Tx>, ids: seq<TxId>, i: TxId, tx: Tx)
    requires (forall k | k in ids :: k in txs) && Distinct(ids) && i in ids
    ensures Total(f, txs[i := tx], ids) + f(txs[i]) == Total(f, txs, ids) + f(tx)
  {
    if ids[0] == i {
      TotalElsewhere(f, txs, ids[1..], i, tx);
    } else {
      TotalChanges(f, txs, ids[1..], i, tx);
    }
  }

  /** Every transaction of s, once. */
  ghost predicate Lists(s: State, ids: seq<TxId>) { Distinct(ids) && forall i :: i in ids <==> i in s.txs }

  lemma {:induction false} ListOf(keys: set<TxId>) returns (ids: seq<TxId>)
    ensures Distinct(ids) && forall i :: i in ids <==> i in keys
    decreases keys
  {
    if keys == {} {
      ids := [];
    } else {
      var i := Member(keys);
      var rest := ListOf(keys - {i});
      ids := [i] + rest;
    }
  }

  lemma TotalsFall(h: KeyId -> int, s: State, s': State, i: TxId, c: Choice, ids: seq<TxId>)
    requires Inv(h, s) && TxStep(h, s, s', i, c) && Lists(s, ids)
    ensures Lists(s', ids)
    ensures Fewer(Total(AttemptsLeft, s.txs, ids), Total(PhasesLeft, s.txs, ids), Total(StepsLeft, s.txs, ids),
                  Total(AttemptsLeft, s'.txs, ids), Total(PhasesLeft, s'.txs, ids), Total(StepsLeft, s'.txs, ids))
  {
    var tx' := After(s.tables, s.txs[i], c);
    StepLeavesLess(h, s.tables, s.txs[i], c);
    TotalChanges(AttemptsLeft, s.txs, ids, i, tx');
    TotalChanges(PhasesLeft, s.txs, ids, i, tx');
    TotalChanges(StepsLeft, s.txs, ids, i, tx');
  }

  ghost predicate AllDone(s: State) { forall i | i in s.txs :: s.txs[i].phase.Done? }

  lemma OneStepOn(h: KeyId -> int, run: seq<State>, s': State)
    requires IsRun(h, run) && Step(h, run[|run| - 1], s')
    ensures IsRun(h, run + [s'])
  {
    var on := run + [s'];
    forall n | 0 <= n < |on| - 1 ensures StepsOn(h, on, n) {
      assert on[n] == run[n] && (n + 1 < |run| ==> on[n + 1] == run[n + 1] && StepsOn(h, run, n));
    }
  }

  predicate FewerIn(s: State, s': State, ids: seq<TxId>)
    requires forall i | i in ids :: i in s.txs && i in s'.txs
  {
    Fewer(Total(AttemptsLeft, s.txs, ids), Total(PhasesLeft, s.txs, ids), Total(StepsLeft, s.txs, ids),
          Total(AttemptsLeft, s'.txs, ids), Total(PhasesLeft, s'.txs, ids), Total(StepsLeft, s'.txs, ids))
  }

  /** One more step of a run that is not done. */
  lemma Advance(h: KeyId -> int, run: seq<State>, ids: seq<TxId>) returns (j: TxId, c: Choice, s': State)
    requires IsRun(h, run) && Lists(run[|run| - 1], ids) && !AllDone(run[|run| - 1])
    ensures TxStep(h, run[|run| - 1], s', j, c)
    ensures IsRun(h, run + [s']) && Lists(s', ids) && FewerIn(run[|run| - 1], s', ids)
  {
    var s := run[|run| - 1];
    var i :| i in s.txs && !s.txs[i].phase.Done?;
    j, c, s' := SomeoneSteps(h, run, |run| - 1, i);
    RunKeepsInv(h, run, |run| - 1);
    TotalsFall(h, s, s', j, c, ids);
    assert Step(h, s, s');
    OneStepOn(h, run, s');
  }

  lemma {:induction false} Finish(h: KeyId -> int, run: seq<State>, ids: seq<TxId>) returns (on: seq<State>)
    requires IsRun(h, run) && Lists(run[|run| - 1], ids)
    ensures IsRun(h, on) && run <= on && AllDone(on[|on| - 1]) && Lists(on[|on| - 1], ids)
    decreases Total(AttemptsLeft, run[|run| - 1].txs, ids), Total(PhasesLeft, run[|run| - 1].txs, ids),
              Total(StepsLeft, run[|run| - 1].txs, ids)
  {
    if AllDone(run[|run| - 1]) {
      on := run;
    } else {
      var j, c, s' := Advance(h, run, ids);
      on := Finish(h, run + [s'], ids);
    }
  }

  ghost predicate WithinAttempts(s: State) { forall i | i in s.txs :: s.txs[i].attempt < MAX_ATTEMPTS }

  lemma AttemptsAreBounded(h: KeyId -> int, s: State)
    requires Inv(h, s)
    ensures WithinAttempts(s)
  {
    assert forall i | i in s.txs :: Shape(h, s.txs[i]);
  }

  /**
   No run is ever in a dead end: it can be continued until every transaction it has started is
   done, each within its three attempts.
   */
  lemma EveryoneCanFinish(h: KeyId -> int, run: seq<State>) returns (on: seq<State>)
    requires IsRun(h, run)
    ensures IsRun(h, on) && run <= on && AllDone(on[|on| - 1])
    ensures on[|on| - 1].txs.Keys == run[|run| - 1].txs.Keys
    ensures WithinAttempts(on[|on| - 1])
  {
    var ids := ListOf(run[|run| - 1].txs.Keys);
    on := Finish(h, run, ids);
    RunKeepsInv(h, on, |on| - 1);
    AttemptsAreBounded(h, on[|on| - 1]);
  }

  // ---- Commits are reached ----

  /** Transaction i is a bind that nothing stands in the way of, and the only one unfinished. */
  ghost predicate LoneBind(s: State, i: TxId) {
    && i in s.txs && s.txs[i].job.Bind? && (forall j | j in s.txs && j != i :: s.txs[j].phase.Done?)
    && AuthStores.BindVerdict(s.tables, s.txs[i].job.key, s.txs[i].job.auth.user).Ok?
    && !s.txs[i].phase.Rollback? && !s.txs[i].phase.Done?
  }

  /** Such a bind is not turned back by any of its steps. */
  lemma GoesWell(h: KeyId -> int, t: Tables, tx: Tx, c: Choice)
    requires Shape(h, tx) && Facts(t, tx) && Sensible(h, t, tx, c) && tx.job.Bind? && !tx.phase.Rollback? && !tx.phase.Done?
    requires AuthStores.BindVerdict(t, tx.job.key, tx.job.auth.user).Ok?
    ensures
      var tx' := After(t, tx, c);
      && tx'.job == tx.job && !tx'.phase.Rollback?
      && (if Commits(tx) then tx'.phase == Done(true) else !tx'.phase.Done? && Effect(t, tx) == t)
  {
    if tx.phase.Statement? { GoesWellLocking(t, tx, c); }
  }

  lemma GoesWellLocking(t: Tables, tx: Tx, c: Choice)
    requires Facts(t, tx) && tx.job.Bind? && tx.phase.Statement? && (tx.phase.locksLeft != {} ==> c.lock in tx.phase.locksLeft)
    requires AuthStores.BindVerdict(t, tx.job.key, tx.job.auth.user).Ok?
    ensures
      var tx' := AfterStatement(t, tx, c);
      && tx'.job == tx.job
      && (if tx.phase.locksLeft == {} then tx'.phase == Done(true) else tx'.phase.Statement?)
  {
  }

  lemma StepsAlone(h: KeyId -> int, s: State, s': State, i: TxId, c: Choice)
    requires Inv(h, s) && LoneBind(s, i) && TxStep(h, s, s', i, c)
    ensures i in s'.txs && s'.txs[i].job == s.txs[i].job
    ensures if Commits(s.txs[i]) then s'.txs[i].phase == Done(true) else LoneBind(s', i) && s'.tables == s.tables
  {
    GoesWell(h, s.tables, s.txs[i], c);
  }

  /** The last step is the commit of transaction i, in these tables and of this job. */
  ghost predicate EndsInCommit(h: KeyId -> int, run: seq<State>, i: TxId, c: Choice, t: Tables, job: Job) {
    && |run| > 1
    && var s, s' := run[|run| - 2], run[|run| - 1];
    && TxStep(h, s, s', i, c) && Commits(s.txs[i])
    && s.tables == t && s.txs[i].job == job && s'.txs[i].phase == Done(true)
  }

  lemma CommitIsLast(h: KeyId -> int, run: seq<State>, i: TxId, c: Choice, s': State)
    requires run != [] && TxStep(h, run[|run| - 1], s', i, c) && Commits(run[|run| - 1].txs[i]) && s'.txs[i].phase == Done(true)
    ensures EndsInCommit(h, run + [s'], i, c, run[|run| - 1].tables, run[|run| - 1].txs[i].job)
  {
  }

  lemma {:induction false} CommitAlone(h: KeyId -> int, run: seq<State>, i: TxId, ids: seq<TxId>) returns (on: seq<State>, c: Choice)
    requires IsRun(h, run) && LoneBind(run[|run| - 1], i) && Lists(run[|run| - 1], ids)
    ensures IsRun(h, on) && |on| > |run| && on[0] == run[0]
    ensures EndsInCommit(h, on, i, c, run[|run| - 1].tables, run[|run| - 1].txs[i].job)
    decreases Total(AttemptsLeft, run[|run| - 1].txs, ids), Total(PhasesLeft, run[|run| - 1].txs, ids),
              Total(StepsLeft, run[|run| - 1].txs, ids)
  {
    var s := run[|run| - 1];
    var j, s';
    j, c, s' := Advance(h, run, ids);
    RunKeepsInv(h, run, |run| - 1);
    assert j == i;
    StepsAlone(h, s, s', i, c);
    if Commits(s.txs[i]) {
      CommitIsLast(h, run, i, c, s');
      on := run + [s'];
    } else {
      on, c := CommitAlone(h, run + [s'], i, ids);
    }
  }

  /**
   In whole tables, a bind that the store would accept has a run to its commit, and what it commits
   is what the store's own method does: the gates keep nobody out for good.
   */
  lemma LoneBindCommits(h: KeyId -> int, t: Tables, key: KeyId, auth: Authorization, date: int) returns (run: seq<State>)
    requires Intact(t) && AuthStores.BindVerdict(t, key, auth.user).Ok?
    ensures IsRun(h, run) && run[0] == State(t, map[])
    ensures
      var s := run[|run| - 1];
      && s.tables == BindWrites(t, key, auth, t.keys[key].layer, date)
      && 0 in s.txs && s.txs[0].phase == Done(true)
  {
    var s0, s1 := State(t, map[]), State(t, map[0 := Fresh(Bind(key, auth, date), 0)]);
    assert StartStep(s0, s1, 0, Bind(key, auth, date));
    OneStepOn(h, [s0], s1);
    var c;
    run, c := CommitAlone(h, [s0] + [s1], 0, [0]);
    IdentityResults.BindIsAtomic(h, run, |run| - 2, 0, c);
  }
}
