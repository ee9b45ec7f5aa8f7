/**
 The invariant of the transaction system: what every transaction holds and knows in
 each phase, and that locks exclude each other. Each step keeps it.
 */
module IdentityInvariant {
  import opened AuthTables
  import opened IdentityLocks

  predicate PastGates(p: Phase) {
    p.TakeRows? || p.Recheck? || p.TakePermanentRow? || p.TakeWatermark? || p.TakeRetention? || p.Doom? || p.Statement?
  }

  /** The phases in which gates and rows are fixed and the transaction is still acquiring. */
  predicate Chosen(p: Phase) { p.TakeGates? || PastGates(p) }

  /** How many gates are held, and how many rows have been visited. */
  function GatesTaken(tx: Tx): nat { if tx.phase.TakeGates? then tx.phase.gatesTaken else |tx.gates| }

  function RowsPassed(tx: Tx): nat { if tx.phase.TakeRows? then tx.phase.rowsPassed else |tx.rows| }

  function LocksLeft(p: Phase): set<Lock> { if p.Statement? then p.locksLeft else {} }

  /** The gates cover every permanent identity the transaction works on. */
  ghost predicate Covered(h: KeyId -> int, tx: Tx) {
    match tx.job
    case Bind(key, _, _) => tx.rows == [key] && h(key) in tx.gates
    case DeleteKey(raw) => tx.rows == [raw] && (tx.hint.HasIdentity() ==> h(tx.hint.Identity(raw)) in tx.gates)
    case _ => forall k | k in tx.rows :: h(k) in tx.gates
  }

  ghost predicate IsTaken(tx: Tx, l: Lock)
    requires GatesTaken(tx) <= |tx.gates|
  {
    l.Gate? && exists n | 0 <= n < GatesTaken(tx) :: l.hash == tx.gates[n]
  }

  ghost predicate GateShape(tx: Tx) {
    && tx.attempt < MAX_ATTEMPTS
    && StrictlySorted(tx.gates)
    && (tx.phase.Begin? || tx.phase.Done? ==> tx.held == {})
    && (tx.phase.TakeUserRow? ==> tx.job.Bind? && tx.held <= UserGates(tx.job.auth.user))
    && GatesTaken(tx) <= |tx.gates|
    && (Chosen(tx.phase) ==> forall n | 0 <= n < GatesTaken(tx) :: Gate(tx.gates[n]) in tx.held)
    && (tx.phase.TakeGates? ==> forall l | l in tx.held :: l.UserGate? || l.UserRow? || IsTaken(tx, l))
    && (Chosen(tx.phase) && tx.job.Bind? ==> UserRow(tx.job.auth.user) in tx.held)
  }

  ghost predicate PhaseShape(tx: Tx) {
    && (tx.phase.Recheck? ==> !tx.job.Bind?)
    && (tx.phase.TakePermanentRow? ==> tx.job.DeleteKey? && tx.hint.bound)
    && (tx.phase.Doom? ==> tx.job.DeleteKey?)
    && (tx.phase.TakeWatermark? || tx.phase.TakeRetention? ==> tx.job.Bind?)
    && RowsPassed(tx) <= |tx.rows|
    && (tx.phase.TakeRows? && !Revokes(tx.job) && tx.phase.rowsPassed == 0 ==> forall k :: KeyLock(k) !in tx.held)
    && (forall l | l in LocksLeft(tx.phase) ::
          && (l.KeyLock? ==> tx.job.DeleteKey? && l.key in tx.targets)
          && (l.AuthLock? ==> l.key in tx.targets + if tx.job.DeleteKey? then {tx.job.raw} else {})
          && (l.CursorLock? ==> l.key in tx.targets + if tx.job.DeleteKey? then {tx.job.raw} else {})
          && (l.KeyLock? || l.AuthLock? || l.CursorLock?))
  }

  /** Where every lock held beyond the gates comes from. */
  ghost predicate RowShape(tx: Tx) {
    && (forall k | KeyLock(k) in tx.held ::
          || k in tx.rows
          || (tx.job.DeleteKey? && tx.hint.bound && k == tx.hint.perm && (tx.phase.Doom? || tx.phase.Statement?))
          || (tx.job.DeleteKey? && tx.phase.Statement? && k in tx.targets))
    && (forall k | AuthLock(k) in tx.held || CursorLock(k) in tx.held ::
          && tx.phase.Statement?
          && ((k in tx.rows && KeyLock(k) in tx.held) || (tx.job.DeleteKey? && k in tx.targets)))
    && (forall u | WatermarkLock(u) in tx.held || RetentionLock(u) in tx.held :: tx.job.Bind? && u == tx.job.auth.user)
  }

  ghost predicate Shape(h: KeyId -> int, tx: Tx) {
    && GateShape(tx)
    && PhaseShape(tx)
    && (Chosen(tx.phase) || tx.phase.TakeUserRow? ==> Covered(h, tx))
    && (PastGates(tx.phase) ==> RowShape(tx))
    && (Chosen(tx.phase) || tx.phase.TakeUserRow? ==>
          forall u | UserRow(u) in tx.held || UserGate(u) in tx.held :: tx.job.Bind? && u == tx.job.auth.user)
  }

  ghost predicate BindFacts(t: Tables, tx: Tx)
    requires tx.job.Bind?
  {
    var k, u, p := tx.job.key, tx.job.auth.user, tx.phase;
    && (Chosen(p) ==> UserRow(u) in tx.held && u in t.users && t.users[u])
    && (PastGates(p) && RowsPassed(tx) == 1 ==>
          KeyLock(k) in tx.held && k in t.keys && !Unusable(t.keys[k]) && tx.layer == t.keys[k].layer)
    && (p.TakeRetention? || p.Statement? ==> WatermarkLock(u) in tx.held && tx.pts == At(t.watermarks, u))
    && (p.Statement? ==>
          && RetentionLock(u) in tx.held && tx.floor == At(t.retention, u) && tx.floor <= tx.pts
          && tx.targets == {k}
          && CursorLock(k) in tx.held + p.locksLeft && AuthLock(k) in tx.held + p.locksLeft
          && (CursorLock(k) in tx.held ==> UpsertAllowed(t, k, u, tx.pts)))
  }

  ghost predicate DeleteFacts(t: Tables, tx: Tx)
    requires tx.job.DeleteKey?
  {
    var raw, p := tx.job.raw, tx.phase;
    && (PastGates(p) && RowsPassed(tx) == 1 ==>
          KeyLock(raw) in tx.held && raw in t.keys && t.keys[raw].expiresAt == tx.expiresAt)
    && (p.TakePermanentRow? || p.Doom? || p.Statement? ==>
          && tx.hint.expiresAt == tx.expiresAt
          && (tx.hint.bound <==> raw in t.bindings)
          && (tx.hint.bound ==> t.bindings[raw] == tx.hint.perm))
    && (p.Statement? ==>
          && tx.targets == BoundTo(t, raw)
          && (forall k | k in tx.targets :: KeyLock(k) in tx.held + p.locksLeft)
          && (forall k | k in tx.targets || k == raw ::
                AuthLock(k) in tx.held + p.locksLeft && CursorLock(k) in tx.held + p.locksLeft))
  }

  ghost predicate RevokeFacts(t: Tables, tx: Tx)
    requires Revokes(tx.job)
  {
    var p := tx.phase;
    && (Chosen(p) ==> forall k | k in tx.rows :: k !in t.bindings)
    && (PastGates(p) ==> forall n | 0 <= n < RowsPassed(tx) && n < |tx.rows| :: KeyLock(tx.rows[n]) in tx.held || tx.rows[n] !in t.auths)
    && (p.Statement? ==>
          && tx.targets == Revalidated(t, tx)
          && (forall k | k in tx.targets ::
                && k in tx.rows && KeyLock(k) in tx.held
                && AuthLock(k) in tx.held + p.locksLeft && CursorLock(k) in tx.held + p.locksLeft
                && Selected(t, tx.job, k)))
  }

  ghost predicate Facts(t: Tables, tx: Tx) {
    match tx.job
    case Bind(_, _, _) => BindFacts(t, tx)
    case DeleteKey(_) => DeleteFacts(t, tx)
    case _ => RevokeFacts(t, tx)
  }

  ghost predicate Inv(h: KeyId -> int, s: State) {
    && Intact(s.tables)
    && (forall i | i in s.txs :: Shape(h, s.txs[i]) && Facts(s.tables, s.txs[i]))
    && (forall i, j | i in s.txs && j in s.txs && i != j :: s.txs[i].held !! s.txs[j].held)
  }

  // ---- The stepping transaction keeps its own shape and facts ----

  lemma OwnBegin(h: KeyId -> int, t: Tables, tx: Tx, c: Choice)
    requires Intact(t) && tx.phase.Begin? && Shape(h, tx) && Sensible(h, t, tx, c)
    ensures var tx' := After(t, tx, c); Shape(h, tx') && Facts(t, tx')
  {
    match tx.job
    case Bind(key, _, _) => assert key in [key];
    case DeleteKey(raw) => OwnBeginDelete(h, t, tx, c);
    case _ => OwnBeginRevoke(h, t, tx, c);
  }

  lemma OwnBeginDelete(h: KeyId -> int, t: Tables, tx: Tx, c: Choice)
    requires tx.phase.Begin? && Shape(h, tx) && Sensible(h, t, tx, c) && tx.job.DeleteKey?
    ensures var tx' := After(t, tx, c); Shape(h, tx') && Facts(t, tx')
  {
    var tx' := After(t, tx, c);
    if tx'.phase.TakeGates? {
      assert tx'.hint.HasIdentity() ==> tx'.hint.Identity(tx.job.raw) in [tx'.hint.Identity(tx.job.raw)];
    }
  }

  lemma OwnBeginRevoke(h: KeyId -> int, t: Tables, tx: Tx, c: Choice)
    requires Intact(t) && tx.phase.Begin? && Shape(h, tx) && Sensible(h, t, tx, c) && Revokes(tx.job)
    ensures var tx' := After(t, tx, c); Shape(h, tx') && Facts(t, tx')
  {
    var tx' := After(t, tx, c);
    if tx'.phase.TakeGates? {
      forall k | k in c.candidates ensures k !in t.bindings {
        assert Selected(t, tx.job, k);
        assert IsPermanent(t, k);
      }
    }
  }

  lemma OwnUserRow(h: KeyId -> int, t: Tables, tx: Tx, c: Choice)
    requires tx.phase.TakeUserRow? && Shape(h, tx)
    ensures var tx' := After(t, tx, c); Shape(h, tx') && Facts(t, tx')
  {
  }

  lemma OwnGates(h: KeyId -> int, t: Tables, tx: Tx, c: Choice)
    requires tx.phase.TakeGates?
    requires Shape(h, tx) && Facts(t, tx)
    ensures var tx' := After(t, tx, c); Shape(h, tx') && Facts(t, tx')
  {
    GatesKeepShape(h, t, tx, c);
  }

  lemma GatesKeepShape(h: KeyId -> int, t: Tables, tx: Tx, c: Choice)
    requires tx.phase.TakeGates? && Shape(h, tx) && Facts(t, tx)
    ensures Shape(h, After(t, tx, c))
  {
    var tx' := After(t, tx, c);
    if tx'.phase.TakeGates? {
      forall l | l in tx'.held ensures l.UserGate? || l.UserRow? || IsTaken(tx', l) {
        if l in tx.held && IsTaken(tx, l) { TakenStays(tx, tx', l); }
      }
    }
  }

  lemma TakenStays(tx: Tx, tx': Tx, l: Lock)
    requires GatesTaken(tx) <= GatesTaken(tx') <= |tx.gates| && tx'.gates == tx.gates && IsTaken(tx, l)
    ensures IsTaken(tx', l)
  {
    var n :| 0 <= n < GatesTaken(tx) && l.hash == tx.gates[n];
    assert l.hash == tx'.gates[n];
  }

  lemma RowsKeepRows(t: Tables, tx: Tx)
    requires tx.phase.TakeRows? && PhaseShape(tx) && RowShape(tx)
    ensures var tx' := AfterRow(t, tx); PastGates(tx'.phase) ==> RowShape(tx')
  {
  }

  lemma RowsKeepShape(h: KeyId -> int, t: Tables, tx: Tx)
    requires tx.phase.TakeRows? && Shape(h, tx)
    ensures Shape(h, AfterRow(t, tx))
  {
    RowsKeepRows(t, tx);
  }

  lemma RowsKeepFacts(h: KeyId -> int, t: Tables, tx: Tx)
    requires tx.phase.TakeRows? && !Revokes(tx.job) && Shape(h, tx) && Facts(t, tx)
    ensures Facts(t, AfterRow(t, tx))
  {
  }

  lemma RowsKeepRevokeFacts(h: KeyId -> int, t: Tables, tx: Tx)
    requires tx.phase.TakeRows? && Revokes(tx.job) && Intact(t) && Shape(h, tx) && Facts(t, tx)
    ensures Facts(t, AfterRow(t, tx))
  {
    var n := tx.phase.rowsPassed;
    if n < |tx.rows| {
      assert tx.rows[n] in t.auths ==> IsPermanent(t, tx.rows[n]);
    }
  }

  lemma OwnRows(h: KeyId -> int, t: Tables, tx: Tx, c: Choice)
    requires tx.phase.TakeRows? && Intact(t) && Shape(h, tx) && Facts(t, tx)
    ensures var tx' := After(t, tx, c); Shape(h, tx') && Facts(t, tx')
  {
    assert After(t, tx, c) == AfterRow(t, tx);
    RowsKeepShape(h, t, tx);
    if Revokes(tx.job) { RowsKeepRevokeFacts(h, t, tx); } else { RowsKeepFacts(h, t, tx); }
  }

  lemma RecheckKeepsShape(h: KeyId -> int, t: Tables, tx: Tx)
    requires tx.phase.Recheck? && Shape(h, tx) && tx.job.DeleteKey?
    ensures Shape(h, AfterRecheck(t, tx))
  {
  }

  lemma RecheckKeepsFacts(h: KeyId -> int, t: Tables, tx: Tx)
    requires tx.phase.Recheck? && Shape(h, tx) && Facts(t, tx) && tx.job.DeleteKey?
    ensures Facts(t, AfterRecheck(t, tx))
  {
  }

  lemma PermanentRowKeepsFacts(h: KeyId -> int, t: Tables, tx: Tx)
    requires tx.phase.TakePermanentRow? && PhaseShape(tx) && Facts(t, tx)
    ensures Facts(t, AfterPermanentRow(t, tx))
  {
  }

  lemma PermanentRowKeeps(h: KeyId -> int, t: Tables, tx: Tx)
    requires tx.phase.TakePermanentRow? && Shape(h, tx) && Facts(t, tx)
    ensures var tx' := AfterPermanentRow(t, tx); Shape(h, tx') && Facts(t, tx')
  {
    PermanentRowKeepsFacts(h, t, tx);
  }

  lemma OwnRecheckDelete(h: KeyId -> int, t: Tables, tx: Tx, c: Choice)
    requires tx.phase.Recheck? || tx.phase.TakePermanentRow?
    requires Shape(h, tx) && Facts(t, tx) && tx.job.DeleteKey?
    ensures var tx' := After(t, tx, c); Shape(h, tx') && Facts(t, tx')
  {
    if tx.phase.Recheck? {
      assert After(t, tx, c) == AfterRecheck(t, tx);
      RecheckKeepsShape(h, t, tx);
      RecheckKeepsFacts(h, t, tx);
    } else {
      assert After(t, tx, c) == AfterPermanentRow(t, tx);
      PermanentRowKeeps(h, t, tx);
    }
  }

  lemma TargetsAreHeld(h: KeyId -> int, t: Tables, tx: Tx, k: KeyId)
    requires tx.phase.Recheck? && Shape(h, tx) && Facts(t, tx) && Revokes(tx.job) && k in Revalidated(t, tx)
    ensures k in tx.rows && KeyLock(k) in tx.held
  {
    assert Selected(t, tx.job, k);
  }

  lemma TargetsKeepShape(h: KeyId -> int, t: Tables, tx: Tx)
    requires tx.phase.Recheck? && Shape(h, tx) && Facts(t, tx) && Revokes(tx.job)
    ensures Shape(h, AfterRecheck(t, tx))
  {
    forall k | k in Revalidated(t, tx) ensures k in tx.rows && KeyLock(k) in tx.held {
      TargetsAreHeld(h, t, tx, k);
    }
  }

  lemma TargetsKeepFacts(h: KeyId -> int, t: Tables, tx: Tx)
    requires tx.phase.Recheck? && Shape(h, tx) && Facts(t, tx) && Revokes(tx.job)
    ensures Facts(t, AfterRecheck(t, tx))
  {
    forall k | k in Revalidated(t, tx) ensures k in tx.rows && KeyLock(k) in tx.held {
      TargetsAreHeld(h, t, tx, k);
    }
  }

  lemma OwnRecheckRevoke(h: KeyId -> int, t: Tables, tx: Tx, c: Choice)
    requires tx.phase.Recheck? && Shape(h, tx) && Facts(t, tx) && Revokes(tx.job)
    ensures var tx' := After(t, tx, c); Shape(h, tx') && Facts(t, tx')
  {
    TargetsKeepShape(h, t, tx);
    TargetsKeepFacts(h, t, tx);
    assert After(t, tx, c) == AfterRecheck(t, tx);
  }

  lemma OwnWatermark(h: KeyId -> int, t: Tables, tx: Tx, c: Choice)
    requires tx.phase.TakeWatermark? && Shape(h, tx) && Facts(t, tx)
    ensures var tx' := After(t, tx, c); Shape(h, tx') && Facts(t, tx')
  {
  }

  lemma OwnRetention(h: KeyId -> int, t: Tables, tx: Tx, c: Choice)
    requires tx.phase.TakeRetention? && Shape(h, tx) && Facts(t, tx)
    ensures var tx' := After(t, tx, c); Shape(h, tx') && Facts(t, tx')
  {
    assert After(t, tx, c) == AfterRetention(t, tx);
  }

  lemma OwnDoom(h: KeyId -> int, t: Tables, tx: Tx, c: Choice)
    requires tx.phase.Doom?
    requires Intact(t) && Shape(h, tx) && Facts(t, tx)
    ensures var tx' := After(t, tx, c); Shape(h, tx') && Facts(t, tx')
  {
  }

  lemma LockKeepsRows(h: KeyId -> int, t: Tables, tx: Tx, c: Choice)
    requires tx.phase.Statement? && c.lock in tx.phase.locksLeft && PhaseShape(tx) && RowShape(tx)
    requires Covered(h, tx) && Facts(t, tx)
    ensures var tx' := AfterStatement(t, tx, c); PastGates(tx'.phase) ==> RowShape(tx')
  {
  }

  lemma LockKeepsShape(h: KeyId -> int, t: Tables, tx: Tx, c: Choice)
    requires tx.phase.Statement? && c.lock in tx.phase.locksLeft && Shape(h, tx) && Facts(t, tx)
    ensures Shape(h, AfterStatement(t, tx, c))
  {
    LockKeepsRows(h, t, tx, c);
  }

  lemma OwnStatementShape(h: KeyId -> int, t: Tables, tx: Tx, c: Choice)
    requires tx.phase.Statement? && c.lock in tx.phase.locksLeft
    requires Shape(h, tx) && Facts(t, tx)
    ensures Shape(h, After(t, tx, c))
  {
    assert After(t, tx, c) == AfterStatement(t, tx, c);
    LockKeepsShape(h, t, tx, c);
  }

  lemma OwnStatement(h: KeyId -> int, t: Tables, tx: Tx, c: Choice)
    requires tx.phase.Statement? && c.lock in tx.phase.locksLeft
    requires Facts(t, tx)
    ensures Facts(t, After(t, tx, c))
  {
  }

  lemma OwnEnd(h: KeyId -> int, t: Tables, tx: Tx, c: Choice)
    requires tx.phase == Statement({}) || tx.phase.Rollback? || tx.phase.Done?
    requires Shape(h, tx)
    ensures var tx' := After(t, tx, c); Shape(h, tx') && forall t' :: Facts(t', tx')
  {
  }

  lemma OwnStep(h: KeyId -> int, t: Tables, tx: Tx, c: Choice)
    requires Intact(t) && Shape(h, tx) && Facts(t, tx) && Sensible(h, t, tx, c)
    ensures var tx' := After(t, tx, c); Shape(h, tx') && Facts(Effect(t, tx), tx')
  {
    match tx.phase
    case Begin => OwnBegin(h, t, tx, c);
    case TakeUserRow => OwnUserRow(h, t, tx, c);
    case TakeGates(_) => OwnGates(h, t, tx, c);
    case TakeRows(_) => OwnRows(h, t, tx, c);
    case Recheck => if tx.job.DeleteKey? { OwnRecheckDelete(h, t, tx, c); } else { OwnRecheckRevoke(h, t, tx, c); }
    case TakePermanentRow => OwnRecheckDelete(h, t, tx, c);
    case TakeWatermark => OwnWatermark(h, t, tx, c);
    case TakeRetention => OwnRetention(h, t, tx, c);
    case Doom => OwnDoom(h, t, tx, c);
    case Statement(left) => if left == {} { OwnEnd(h, t, tx, c); } else { OwnStatementShape(h, t, tx, c); OwnStatement(h, t, tx, c); }
    case Rollback(_) => OwnEnd(h, t, tx, c);
    case Done(_) => OwnEnd(h, t, tx, c);
  }

  /** A step adds to the locks held only what it needed. */
  lemma HeldGrows(t: Tables, tx: Tx, c: Choice)
    ensures After(t, tx, c).held <= tx.held + Needs(t, tx, c)
  {
  }

  // ---- The other transactions ----

  /** t' agrees with t on everything that the holder of these locks may rely on. */
  ghost predicate Untouched(h: KeyId -> int, t: Tables, t': Tables, locks: set<Lock>) {
    && (forall k | k in t'.bindings :: k in t.bindings && t'.bindings[k] == t.bindings[k])
    && (forall k | KeyLock(k) in locks ::
          && (k in t.keys <==> k in t'.keys)
          && (k in t.keys ==> t.keys[k] == t'.keys[k])
          && (k in t.bindings ==> k in t'.bindings)
          && (k in t.auths <==> k in t'.auths)
          && (k in t.auths ==> t.auths[k].user == t'.auths[k].user && t.auths[k].hash == t'.auths[k].hash))
    && (forall k | AuthLock(k) in locks ::
          && (k in t.auths <==> k in t'.auths)
          && (k in t.auths ==> t.auths[k] == t'.auths[k]))
    && (forall k | Gate(h(k)) in locks && k in t'.auths ::
          k in t.auths && t.auths[k].user == t'.auths[k].user && t.auths[k].hash == t'.auths[k].hash)
    && (forall k | k in t.bindings && Gate(h(t.bindings[k])) in locks :: k in t'.bindings)
    && ReadsAgree(t, t', locks)
  }

  /** The gate of every identity a writing Delete relies on is held when it commits. */
  lemma DeleteHoldsGates(h: KeyId -> int, t: Tables, tx: Tx)
    requires Intact(t) && Shape(h, tx) && Facts(t, tx)
    requires tx.job.DeleteKey? && (tx.phase.TakePermanentRow? || tx.phase.Doom? || tx.phase.Statement?)
    ensures tx.job.raw in t.bindings ==> Gate(h(t.bindings[tx.job.raw])) in tx.held
    ensures IsPermanent(t, tx.job.raw) ==> Gate(h(tx.job.raw)) in tx.held && tx.job.raw !in t.bindings
    ensures forall x | x in BoundTo(t, tx.job.raw) :: Gate(h(tx.job.raw)) in tx.held
  {
    var raw := tx.job.raw;
    if raw in t.bindings { assert IsTemporary(t, raw); }
    assert forall x | x in BoundTo(t, raw) :: IsPermanent(t, t.bindings[x]);
  }

  lemma FrameDelete(h: KeyId -> int, t: Tables, t': Tables, tx: Tx)
    requires Intact(t) && Shape(h, tx) && Facts(t, tx) && Untouched(h, t, t', tx.held) && tx.job.DeleteKey?
    ensures Facts(t', tx)
  {
    if tx.phase.Statement? {
      DeleteHoldsGates(h, t, tx);
      var before, after := BoundTo(t, tx.job.raw), BoundTo(t', tx.job.raw);
      assert forall k :: k in before <==> k in after;
    }
  }

  /** Past the gates a revoke holds the gate of every row it chose. */
  lemma GateOfRow(h: KeyId -> int, tx: Tx, k: KeyId)
    requires Shape(h, tx) && PastGates(tx.phase) && Revokes(tx.job) && k in tx.rows
    ensures Gate(h(k)) in tx.held
  {
    assert Covered(h, tx);
    var n :| 0 <= n < |tx.gates| && tx.gates[n] == h(k);
    assert n < GatesTaken(tx);
  }

  lemma FrameRevoke(h: KeyId -> int, t: Tables, t': Tables, tx: Tx)
    requires Shape(h, tx) && Facts(t, tx) && Untouched(h, t, t', tx.held) && Revokes(tx.job)
    ensures Facts(t', tx)
  {
    if PastGates(tx.phase) {
      forall n | 0 <= n < RowsPassed(tx) && n < |tx.rows|
        ensures KeyLock(tx.rows[n]) in tx.held || tx.rows[n] !in t'.auths
      {
        GateOfRow(h, tx, tx.rows[n]);
      }
    }
    if tx.phase.Statement? {
      forall k | k in tx.rows ensures Selected(t, tx.job, k) <==> Selected(t', tx.job, k) {
        GateOfRow(h, tx, k);
        if Selected(t, tx.job, k) { assert k in tx.targets; }
      }
      assert Revalidated(t, tx) == Revalidated(t', tx);
    }
  }

  lemma FrameBind(h: KeyId -> int, t: Tables, t': Tables, tx: Tx)
    requires Facts(t, tx) && Untouched(h, t, t', tx.held) && tx.job.Bind?
    ensures Facts(t', tx)
  {
    var k, u := tx.job.key, tx.job.auth.user;
    if tx.phase.Statement? && CursorLock(k) in tx.held {
      assert (k, u) in t.cursors <==> (k, u) in t'.cursors;
    }
  }

  lemma FrameFacts(h: KeyId -> int, t: Tables, t': Tables, tx: Tx)
    requires Intact(t) && Shape(h, tx) && Facts(t, tx) && Untouched(h, t, t', tx.held)
    ensures Facts(t', tx)
  {
    match tx.job
    case Bind(_, _, _) => FrameBind(h, t, t', tx);
    case DeleteKey(_) => FrameDelete(h, t, t', tx);
    case _ => FrameRevoke(h, t, t', tx);
  }

  lemma WritesUntouched(h: KeyId -> int, t: Tables, k: KeyId, a: Authorization, layer: int, date: int, locks: set<Lock>)
    requires KeyLock(k) !in locks && AuthLock(k) !in locks && CursorLock(k) !in locks && Gate(h(k)) !in locks
    requires WatermarkLock(a.user) !in locks && RetentionLock(a.user) !in locks
    ensures Untouched(h, t, BindWrites(t, k, a, layer, date), locks)
  {
    var t' := BindWrites(t, k, a, layer, date);
    forall x, v | CursorLock(x) in locks
      ensures ((x, v) in t.cursors <==> (x, v) in t'.cursors) && ((x, v) in t.cursors ==> t.cursors[(x, v)] == t'.cursors[(x, v)])
    {
      assert x != k;
    }
  }

  lemma BindUntouched(h: KeyId -> int, t: Tables, tx: Tx, locks: set<Lock>)
    requires Shape(h, tx) && Facts(t, tx) && Commits(tx) && tx.job.Bind? && tx.held !! locks
    ensures Untouched(h, t, Effect(t, tx), locks)
  {
    var k, u := tx.job.key, tx.job.auth.user;
    assert {KeyLock(k), AuthLock(k), CursorLock(k), WatermarkLock(u), RetentionLock(u), Gate(h(k))} <= tx.held;
    WritesUntouched(h, t, k, tx.job.auth, tx.layer, tx.job.date, locks);
  }

  lemma RevokeUntouched(h: KeyId -> int, t: Tables, targets: set<KeyId>, locks: set<Lock>)
    requires forall k | k in targets :: KeyLock(k) !in locks && CursorLock(k) !in locks && AuthLock(k) !in locks
    ensures Untouched(h, t, RevokeWrites(t, targets), locks)
  {
    var t' := RevokeWrites(t, targets);
    forall x, v | CursorLock(x) in locks
      ensures ((x, v) in t.cursors <==> (x, v) in t'.cursors) && ((x, v) in t.cursors ==> t.cursors[(x, v)] == t'.cursors[(x, v)])
    {
      assert x !in targets;
    }
  }

  lemma DeletionUntouched(h: KeyId -> int, t: Tables, raw: KeyId, locks: set<Lock>)
    requires forall k | k == raw || k in BoundTo(t, raw) :: KeyLock(k) !in locks && AuthLock(k) !in locks && CursorLock(k) !in locks
    requires raw in t.bindings ==> Gate(h(t.bindings[raw])) !in locks
    requires forall k | k in BoundTo(t, raw) :: Gate(h(raw)) !in locks
    ensures Untouched(h, t, DeleteWrites(t, raw, BoundTo(t, raw)), locks)
  {
    var doomed := BoundTo(t, raw);
    var t' := DeleteWrites(t, raw, doomed);
    forall k | k in t.bindings && Gate(h(t.bindings[k])) in locks ensures k in t'.bindings {
      assert t.bindings[k] == raw ==> k in doomed;
    }
    forall x, v | CursorLock(x) in locks
      ensures ((x, v) in t.cursors <==> (x, v) in t'.cursors) && ((x, v) in t.cursors ==> t.cursors[(x, v)] == t'.cursors[(x, v)])
    {
      assert x != raw && x !in doomed;
    }
  }

  lemma DeleteUntouched(h: KeyId -> int, t: Tables, tx: Tx, locks: set<Lock>)
    requires Intact(t) && Shape(h, tx) && Facts(t, tx) && Commits(tx) && tx.job.DeleteKey? && tx.held !! locks
    ensures Untouched(h, t, Effect(t, tx), locks)
  {
    DeleteHoldsGates(h, t, tx);
    DeletionUntouched(h, t, tx.job.raw, locks);
  }

  lemma CommitUntouched(h: KeyId -> int, t: Tables, tx: Tx, locks: set<Lock>)
    requires Intact(t) && Shape(h, tx) && Facts(t, tx) && tx.held !! locks
    ensures Untouched(h, t, Effect(t, tx), locks)
  {
    if Commits(tx) {
      match tx.job
      case Bind(_, _, _) => BindUntouched(h, t, tx, locks);
      case DeleteKey(_) => DeleteUntouched(h, t, tx, locks);
      case _ =>
        assert forall k | k in tx.targets :: KeyLock(k) in tx.held && AuthLock(k) in tx.held && CursorLock(k) in tx.held;
        RevokeUntouched(h, t, tx.targets, locks);
    }
  }

  /** Under a gate, a commit of somebody else changes no authorization it leaves. */
  lemma GatedRowsStay(h: KeyId -> int, t: Tables, tx: Tx, locks: set<Lock>, k: KeyId)
    requires Shape(h, tx) && tx.held !! locks && Gate(h(k)) in locks && k in Effect(t, tx).auths
    ensures k in t.auths && Effect(t, tx).auths[k] == t.auths[k]
  {
    if Commits(tx) && tx.job.Bind? {
      assert Gate(h(tx.job.key)) in tx.held;
    }
  }

  lemma CommitIntact(h: KeyId -> int, t: Tables, tx: Tx)
    requires Intact(t) && Shape(h, tx) && Facts(t, tx)
    ensures Intact(Effect(t, tx))
  {
    if Commits(tx) {
      match tx.job
      case Bind(key, auth, date) => BindKeepsIntact(t, key, auth, tx.layer, date);
      case DeleteKey(raw) => DeleteKeepsIntact(t, raw);
      case _ => RevokeKeepsIntact(t, tx.targets);
    }
  }

  // ---- Every step keeps the invariant ----

  lemma TxStepKeepsInv(h: KeyId -> int, s: State, s': State, i: TxId, c: Choice)
    requires Inv(h, s) && TxStep(h, s, s', i, c)
    ensures Inv(h, s')
  {
    var t, tx := s.tables, s.txs[i];
    OwnStep(h, t, tx, c);
    CommitIntact(h, t, tx);
    HeldGrows(t, tx, c);
    forall j | j in s'.txs ensures Shape(h, s'.txs[j]) && Facts(s'.tables, s'.txs[j]) {
      if j != i {
        CommitUntouched(h, t, tx, s.txs[j].held);
        FrameFacts(h, t, s'.tables, s.txs[j]);
      }
    }
  }

  /** A change of tables alone, seen by every running transaction as untouched. */
  lemma TableStepKeepsInv(h: KeyId -> int, s: State, s': State)
    requires Inv(h, s) && s'.txs == s.txs && Intact(s'.tables)
    requires forall i | i in s.txs :: Untouched(h, s.tables, s'.tables, s.txs[i].held)
    ensures Inv(h, s')
  {
    forall j | j in s'.txs ensures Facts(s'.tables, s'.txs[j]) {
      FrameFacts(h, s.tables, s'.tables, s.txs[j]);
    }
  }

  lemma SaveUntouched(h: KeyId -> int, t: Tables, k: KeyId, body: seq<bv8>, salt: int, expiresAt: int, locks: set<Lock>)
    requires SaveAllowed(t, k, body, expiresAt) && KeyLock(k) !in locks
    ensures Untouched(h, t, SaveWrites(t, k, body, salt, expiresAt), locks)
  {
  }

  function Marked(t: Tables, k: KeyId, now: int): Tables
    requires k in t.auths
  {
    t.(auths := t.auths[k := t.auths[k].(pending := false, created := now)])
  }

  lemma MarkUntouched(h: KeyId -> int, t: Tables, k: KeyId, now: int, locks: set<Lock>)
    requires k in t.auths && AuthLock(k) !in locks
    ensures Untouched(h, t, Marked(t, k, now), locks)
  {
  }

  lemma MarkKeepsIntact(t: Tables, k: KeyId, now: int)
    requires Intact(t) && k in t.auths
    ensures Intact(Marked(t, k, now))
  {
    var t' := Marked(t, k, now);
    forall x | x in t'.auths ensures IsPermanent(t', x) && (x, t'.auths[x].user) in t'.cursors {
      assert x in t.auths && IsPermanent(t, x) && t'.auths[x].user == t.auths[x].user;
    }
  }

  lemma SaveStepKeepsInv(h: KeyId -> int, s: State, s': State, k: KeyId, body: seq<bv8>, salt: int, expiresAt: int)
    requires Inv(h, s) && SaveStep(s, s', k, body, salt, expiresAt)
    ensures Inv(h, s')
  {
    SaveKeepsIntact(s.tables, k, body, salt, expiresAt);
    forall i | i in s.txs ensures Untouched(h, s.tables, s'.tables, s.txs[i].held) {
      SaveUntouched(h, s.tables, k, body, salt, expiresAt, s.txs[i].held);
    }
    TableStepKeepsInv(h, s, s');
  }

  lemma MarkStepKeepsInv(h: KeyId -> int, s: State, s': State, k: KeyId, u: UserId, now: int)
    requires Inv(h, s) && MarkPasswordPassedStep(s, s', k, u, now)
    ensures Inv(h, s')
  {
    MarkKeepsIntact(s.tables, k, now);
    forall i | i in s.txs ensures Untouched(h, s.tables, s'.tables, s.txs[i].held) {
      MarkUntouched(h, s.tables, k, now, s.txs[i].held);
    }
    TableStepKeepsInv(h, s, s');
  }

  lemma OutsideStepKeepsInv(h: KeyId -> int, s: State, s': State)
    requires Inv(h, s) && OutsideStep(s, s')
    ensures Inv(h, s')
  {
    var t, t' := s.tables, s'.tables;
    assert forall p | p in t'.cursors.Keys :: p in t.cursors.Keys;
    forall x | x in t'.auths ensures IsPermanent(t', x) && (x, t'.auths[x].user) in t'.cursors {
      assert IsPermanent(t, x) && (x, t.auths[x].user) in t.cursors.Keys;
    }
    forall x, u | x in t'.auths && (x, u) in t'.cursors ensures u == t'.auths[x].user {
      assert (x, u) in t.cursors;
    }
    TableStepKeepsInv(h, s, s');
  }

  lemma StartStepKeepsInv(h: KeyId -> int, s: State, s': State, i: TxId, job: Job)
    requires Inv(h, s) && StartStep(s, s', i, job)
    ensures Inv(h, s')
  {}

  lemma StepKeepsInv(h: KeyId -> int, s: State, s': State)
    requires Inv(h, s) && Step(h, s, s')
    ensures Inv(h, s')
  {
    if i, c :| TxStep(h, s, s', i, c) {
      TxStepKeepsInv(h, s, s', i, c);
    } else if i, job :| StartStep(s, s', i, job) {
      StartStepKeepsInv(h, s, s', i, job);
    } else if k, body, salt, expiresAt :| SaveStep(s, s', k, body, salt, expiresAt) {
      SaveStepKeepsInv(h, s, s', k, body, salt, expiresAt);
    } else if k, u, now :| MarkPasswordPassedStep(s, s', k, u, now) {
      MarkStepKeepsInv(h, s, s', k, u, now);
    } else {
      OutsideStepKeepsInv(h, s, s');
    }
  }

  /** The invariant holds in every state of every run. */
  lemma {:induction false} RunKeepsInv(h: KeyId -> int, run: seq<State>, n: nat)
    requires IsRun(h, run) && n < |run|
    ensures Inv(h, run[n])
  {
    if n > 0 {
      RunKeepsInv(h, run, n - 1);
      assert StepsOn(h, run, n - 1);
      StepKeepsInv(h, run[n - 1], run[n]);
    }
  }
}
