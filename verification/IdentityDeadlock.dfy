/**
 No run of the transaction system reaches a cycle of waiting transactions; some unfinished
 transaction always waits for nobody. A waiting transaction is ranked by what it waits for; whoever it waits for
 either is not waiting or has a higher rank.
 */
module IdentityDeadlock {
  import opened AuthTables
  import opened IdentityLocks
  import opened IdentityInvariant

  function Level(tx: Tx): nat {
    match tx.phase
    case Begin => 0
    case TakeUserRow => 1
    case TakeGates(_) => 2
    case TakeRows(_) => if tx.job.DeleteKey? then 3 else 4
    case _ => 5
  }

  function NextGate(tx: Tx): int {
    if tx.phase.TakeGates? && tx.phase.gatesTaken < |tx.gates| then tx.gates[tx.phase.gatesTaken] else 0
  }

  predicate Below(a: Tx, b: Tx) {
    Level(a) < Level(b) || (Level(a) == Level(b) == 2 && NextGate(a) < NextGate(b))
  }

  // ---- Who can hold what ----

  /**
   Whoever holds the row of a permanent key and is past its own checks also holds that
   key's gate, whichever of its keys it locked first.
   */
  lemma PermanentRowHasGate(h: KeyId -> int, t: Tables, tx: Tx, k: KeyId)
    requires Intact(t) && Shape(h, tx) && Facts(t, tx)
    requires KeyLock(k) in tx.held && IsPermanent(t, k) && PastGates(tx.phase)
    requires tx.job.DeleteKey? ==> !tx.phase.TakeRows? && !tx.phase.Recheck?
    ensures Gate(h(k)) in tx.held
  {
    if tx.job.DeleteKey? {
      DeleteHoldsGates(h, t, tx);
      assert forall x | x in t.bindings :: IsTemporary(t, x) && IsPermanent(t, t.bindings[x]);
      assert k == tx.job.raw || (tx.hint.bound && k == tx.hint.perm) || k in tx.targets;
    } else {
      assert k in tx.rows;
      assert h(k) in tx.gates;
    }
  }

  /** Whoever has a cursor or authorization row of a key has the key's row, or the gate of the key it is bound to. */
  lemma ChildRowHasParent(h: KeyId -> int, t: Tables, tx: Tx, k: KeyId)
    requires Shape(h, tx) && Facts(t, tx) && PastGates(tx.phase)
    requires AuthLock(k) in tx.held || CursorLock(k) in tx.held
    ensures KeyLock(k) in tx.held || (tx.job.DeleteKey? && tx.phase.Statement? && k in t.bindings && t.bindings[k] == tx.job.raw)
  {
  }

  /** Someone has the row of a key that is bound to nothing: nobody else has its child rows. */
  lemma OwnedChildIsFree(h: KeyId -> int, t: Tables, held: set<Lock>, tb: Tx, k: KeyId)
    requires Shape(h, tb) && Facts(t, tb) && PastGates(tb.phase) && held !! tb.held
    requires KeyLock(k) in held && k !in t.bindings
    ensures AuthLock(k) !in tb.held && CursorLock(k) !in tb.held
  {
    if AuthLock(k) in tb.held || CursorLock(k) in tb.held {
      ChildRowHasParent(h, t, tb, k);
    }
  }

  /** Nor those of a key that is about to be deleted. */
  lemma DoomedChildIsFree(h: KeyId -> int, t: Tables, ta: Tx, tb: Tx, k: KeyId)
    requires Intact(t) && Shape(h, ta) && Facts(t, ta) && ta.job.DeleteKey? && ta.phase.Statement?
    requires Shape(h, tb) && Facts(t, tb) && PastGates(tb.phase) && ta.held !! tb.held
    requires k == ta.job.raw || k in ta.targets
    ensures AuthLock(k) !in tb.held && CursorLock(k) !in tb.held
  {
    if AuthLock(k) in tb.held || CursorLock(k) in tb.held {
      assert k in t.bindings ==> IsTemporary(t, k);
      ChildRowHasParent(h, t, tb, k);
      DeleteHoldsGates(h, t, ta);
      if tb.job.DeleteKey? { DeleteHoldsGates(h, t, tb); }
    }
  }

  lemma WaitingParent(h: KeyId -> int, t: Tables, ta: Tx, k: KeyId)
    requires Intact(t) && Shape(h, ta) && Facts(t, ta)
    requires AuthLock(k) in Wants(t, ta) || CursorLock(k) in Wants(t, ta)
    requires ta.phase.Statement?
    ensures if ta.job.DeleteKey? then k == ta.job.raw || k in ta.targets else KeyLock(k) in ta.held && k !in t.bindings
  {
    if Revokes(ta.job) { RevokeTargetsArePermanent(h, t, ta, k); }
    assert k in t.bindings ==> IsTemporary(t, k);
  }

  /** A transaction that waits for a child row has the key's row or is deleting the key, and then never waits. */
  lemma ChildRowIsFree(h: KeyId -> int, s: State, a: TxId, b: TxId, k: KeyId)
    requires Inv(h, s) && a in s.txs && b in s.txs && a != b && PastGates(s.txs[b].phase)
    requires AuthLock(k) in Wants(s.tables, s.txs[a]) || CursorLock(k) in Wants(s.tables, s.txs[a])
    requires s.txs[a].phase.Statement?
    ensures AuthLock(k) !in s.txs[b].held && CursorLock(k) !in s.txs[b].held
  {
    WaitingParent(h, s.tables, s.txs[a], k);
    if s.txs[a].job.DeleteKey? {
      DoomedChildIsFree(h, s.tables, s.txs[a], s.txs[b], k);
    } else {
      OwnedChildIsFree(h, s.tables, s.txs[a].held, s.txs[b], k);
    }
  }

  lemma RevokeTargetsArePermanent(h: KeyId -> int, t: Tables, tx: Tx, k: KeyId)
    requires Intact(t) && Shape(h, tx) && Facts(t, tx) && Revokes(tx.job)
    requires tx.phase.Statement?
    requires AuthLock(k) in Wants(t, tx) || CursorLock(k) in Wants(t, tx)
    ensures KeyLock(k) in tx.held && k !in t.bindings
  {
    assert Selected(t, tx.job, k);
    assert k in tx.rows;
    var n :| 0 <= n < |tx.rows| && tx.rows[n] == k;
  }

  // ---- What a waiting transaction can be waiting for ----

  lemma FewLocks(h: KeyId -> int, t: Tables, ta: Tx, tb: Tx, l: Lock)
    requires Shape(h, ta) && Shape(h, tb) && ta.held !! tb.held && !tb.phase.Rollback?
    requires l in Wants(t, ta) && l in tb.held
    requires PastGates(tb.phase) ==> !l.AuthLock? && !l.CursorLock?
    ensures l.UserGate? || l.UserRow? || l.Gate? || l.KeyLock?
    ensures ta.phase.Statement? ==> ta.job.DeleteKey?
    ensures Level(ta) < 5 || ta.phase.TakePermanentRow? || ta.phase.Statement?
  {
    if ta.phase.Statement? { assert l in LocksLeft(ta.phase); }
  }

  /** Unless its holder is already rolling back, every lock waited for is an account's, a gate or a key row. */
  lemma WaitsForFewLocks(h: KeyId -> int, s: State, a: TxId, b: TxId, l: Lock)
    requires Inv(h, s) && Waits(s, a, b) && l in Wants(s.tables, s.txs[a]) && l in s.txs[b].held
    requires !s.txs[b].phase.Rollback?
    ensures s.txs[a].phase.Statement? ==> s.txs[a].job.DeleteKey?
    ensures l.UserGate? || l.UserRow? || l.Gate? || l.KeyLock?
    ensures Level(s.txs[a]) < 5 || s.txs[a].phase.TakePermanentRow? || s.txs[a].phase.Statement?
  {
    if (l.AuthLock? || l.CursorLock?) && PastGates(s.txs[b].phase) {
      ChildRowIsFree(h, s, a, b, l.key);
    }
    FewLocks(h, s.tables, s.txs[a], s.txs[b], l);
  }

  /** Two transactions that know the tables and share no lock. */
  ghost predicate Apart(h: KeyId -> int, t: Tables, ta: Tx, tb: Tx) {
    Intact(t) && Shape(h, ta) && Facts(t, ta) && Shape(h, tb) && Facts(t, tb) && ta.held !! tb.held
  }

  /** Someone waits for a key row held by a transaction that is itself held up: that one has passed the first row it asked for. */
  lemma KeyRowHolder(h: KeyId -> int, t: Tables, ta: Tx, tb: Tx, k: KeyId)
    requires Apart(h, t, ta, tb)
    requires KeyLock(k) in Wants(t, ta) && KeyLock(k) in tb.held && Wants(t, tb) != {}
    ensures Level(ta) < 5 && Level(tb) > Level(ta)
  {
    assert PastGates(tb.phase);
    if tb.job.DeleteKey? {
      DeleteIsPast(t, tb, k);
      DeleteRowHolder(h, t, ta, tb, k);
    } else {
      OtherRowHolder(h, t, ta, tb, k);
    }
  }

  lemma DeleteIsPast(t: Tables, tb: Tx, k: KeyId)
    requires tb.job.DeleteKey? && PastGates(tb.phase) && PhaseShape(tb) && GateShape(tb) && KeyLock(k) in tb.held && Wants(t, tb) != {}
    requires tb.rows == [tb.job.raw]
    ensures tb.phase.TakePermanentRow? || tb.phase.Doom? || tb.phase.Statement?
  {
  }

  lemma DeleteRowHolder(h: KeyId -> int, t: Tables, ta: Tx, tb: Tx, k: KeyId)
    requires Apart(h, t, ta, tb) && KeyLock(k) in Wants(t, ta) && KeyLock(k) in tb.held
    requires tb.job.DeleteKey? && (tb.phase.TakePermanentRow? || tb.phase.Doom? || tb.phase.Statement?)
    ensures Level(ta) < 5
  {
    if ta.phase.TakePermanentRow? || ta.phase.Statement? {
      DeleteHoldsGates(h, t, ta);
      DeleteHoldsGates(h, t, tb);
      assert forall x | x in t.bindings :: IsTemporary(t, x) && IsPermanent(t, t.bindings[x]);
      if ta.phase.TakePermanentRow? {
        PermanentRowHasGate(h, t, tb, k);
      }
    }
  }

  lemma OtherRowHolder(h: KeyId -> int, t: Tables, ta: Tx, tb: Tx, k: KeyId)
    requires Apart(h, t, ta, tb) && KeyLock(k) in Wants(t, ta) && KeyLock(k) in tb.held
    requires !tb.job.DeleteKey? && PastGates(tb.phase) && Wants(t, tb) != {}
    ensures Level(ta) == 3 && Level(tb) > 3
  {
    assert forall x | x in t.bindings :: IsTemporary(t, x);
    assert k in tb.rows && h(k) in tb.gates && Gate(h(k)) in tb.held;
    assert k !in t.bindings;
    if ta.phase.TakePermanentRow? {
      DeleteHoldsGates(h, t, ta);
    }
  }

  /** Along any wait for a transaction that is itself held up, the rank rises. */
  lemma WaitsClimb(h: KeyId -> int, s: State, a: TxId, b: TxId)
    requires Inv(h, s) && Waits(s, a, b) && Wants(s.tables, s.txs[b]) != {}
    ensures Below(s.txs[a], s.txs[b])
  {
    var ta, tb := s.txs[a], s.txs[b];
    var l :| l in Wants(s.tables, ta) && l in tb.held;
    WaitsForFewLocks(h, s, a, b, l);
    if l.KeyLock? {
      KeyRowHolder(h, s.tables, ta, tb, l.key);
    } else {
      EarlyLockHolder(h, s.tables, ta, tb, l);
    }
  }

  /** Someone waits for an account's lock or for a gate. */
  lemma EarlyLockHolder(h: KeyId -> int, t: Tables, ta: Tx, tb: Tx, l: Lock)
    requires Shape(h, ta) && Shape(h, tb) && ta.held !! tb.held && (l.UserGate? || l.UserRow? || l.Gate?)
    requires l in Wants(t, ta) && l in tb.held && Wants(t, tb) != {}
    ensures Below(ta, tb)
  {
    assert l !in LocksLeft(ta.phase);
    if l.Gate? && tb.phase.TakeGates? {
      assert IsTaken(tb, l);
      var n :| 0 <= n < GatesTaken(tb) && l.hash == tb.gates[n];
      assert tb.gates[n] < tb.gates[tb.phase.gatesTaken];
    }
  }

  // ---- No cycle ----

  function Succ(n: nat, length: nat): nat { if n + 1 < length then n + 1 else 0 }

  /** A cycle in the lock-wait relation. */
  ghost predicate WaitCycle(s: State, cycle: seq<TxId>) {
    cycle != [] && forall n | 0 <= n < |cycle| :: Waits(s, cycle[n], cycle[Succ(n, |cycle|)])
  }

  lemma EdgeClimbs(h: KeyId -> int, s: State, cycle: seq<TxId>, n: nat)
    requires Inv(h, s) && WaitCycle(s, cycle) && n < |cycle|
    ensures var a, b := cycle[n], cycle[Succ(n, |cycle|)]; a in s.txs && b in s.txs && Below(s.txs[a], s.txs[b])
  {
    var m := Succ(n, |cycle|);
    assert Waits(s, cycle[n], cycle[m]);
    assert Waits(s, cycle[m], cycle[Succ(m, |cycle|)]);
    WaitsClimb(h, s, cycle[n], cycle[m]);
  }

  lemma {:induction false} PathClimbs(h: KeyId -> int, s: State, cycle: seq<TxId>, n: nat)
    requires Inv(h, s) && WaitCycle(s, cycle) && 0 < n < |cycle|
    ensures cycle[0] in s.txs && cycle[n] in s.txs && Below(s.txs[cycle[0]], s.txs[cycle[n]])
  {
    EdgeClimbs(h, s, cycle, n - 1);
    if n > 1 { PathClimbs(h, s, cycle, n - 1); }
  }

  lemma NoCycle(h: KeyId -> int, s: State, cycle: seq<TxId>)
    requires Inv(h, s)
    ensures !WaitCycle(s, cycle)
  {
    if WaitCycle(s, cycle) {
      var last := |cycle| - 1;
      if last > 0 { PathClimbs(h, s, cycle, last); }
      EdgeClimbs(h, s, cycle, last);
    }
  }

  /**
   Main result: in every state of every run, for any number of concurrent Bind, Revoke
   and Delete transactions and any hash, no transactions wait for each other in a cycle.
   */
  lemma DeadlockFree(h: KeyId -> int, run: seq<State>, n: nat, cycle: seq<TxId>)
    requires IsRun(h, run) && n < |run|
    ensures !WaitCycle(run[n], cycle)
  {
    RunKeepsInv(h, run, n);
    NoCycle(h, run[n], cycle);
  }

  // ---- Never stuck ----

  function HigherRanked(s: State, i: TxId): set<TxId>
    requires i in s.txs
  {
    set x | x in s.txs && Below(s.txs[i], s.txs[x])
  }

  lemma {:induction false} FollowWaits(h: KeyId -> int, s: State, i: TxId) returns (j: TxId)
    requires Inv(h, s) && i in s.txs && !s.txs[i].phase.Done?
    ensures j in s.txs && !s.txs[j].phase.Done? && forall b :: !Waits(s, j, b)
    decreases |HigherRanked(s, i)|
  {
    if b :| Waits(s, i, b) {
      if Wants(s.tables, s.txs[b]) == {} {
        j := b;
      } else {
        WaitsClimb(h, s, i, b);
        assert HigherRanked(s, b) <= HigherRanked(s, i) && b in HigherRanked(s, i) && b !in HigherRanked(s, b);
        Smaller(HigherRanked(s, b), HigherRanked(s, i), b);
        j := FollowWaits(h, s, b);
      }
    } else {
      j := i;
    }
  }

  lemma Smaller(a: set<TxId>, b: set<TxId>, x: TxId)
    requires a <= b && x in b && x !in a
    ensures |a| < |b|
  {
    var c := b - {x};
    assert a <= c && |c| == |b| - 1;
    var d := c - a;
    assert c == a + d;
    assert |c| == |a| + |d|;
  }

  /** While any transaction is unfinished, some unfinished transaction is kept waiting by nobody. */
  lemma NeverStuck(h: KeyId -> int, run: seq<State>, n: nat, i: TxId)
    requires IsRun(h, run) && n < |run|
    requires i in run[n].txs && !run[n].txs[i].phase.Done?
    ensures exists j :: j in run[n].txs && !run[n].txs[j].phase.Done? && forall b :: !Waits(run[n], j, b)
  {
    RunKeepsInv(h, run, n);
    var j := FollowWaits(h, run[n], i);
  }
}
