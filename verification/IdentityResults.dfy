/**
 What the committed tables keep in every run, and what each committing transaction does.
 */
module IdentityResults {
  import opened AuthTables
  import opened IdentityLocks
  import opened IdentityInvariant
  import AuthStores

  /** In every state of every run, an authorization names a permanent key with exactly one cursor, its owner's. */
  lemma AuthorizationsAreWhole(h: KeyId -> int, run: seq<State>, n: nat, k: KeyId)
    requires IsRun(h, run) && n < |run| && k in run[n].tables.auths
    ensures
      var t := run[n].tables;
      && IsPermanent(t, k)
      && forall u :: (k, u) in t.cursors <==> u == t.auths[k].user
  {
    RunKeepsInv(h, run, n);
  }

  /** In every state of every run, a binding joins an existing temporary key to an existing permanent key. */
  lemma BindingsAreWhole(h: KeyId -> int, run: seq<State>, n: nat, k: KeyId)
    requires IsRun(h, run) && n < |run| && k in run[n].tables.bindings
    ensures IsTemporary(run[n].tables, k) && IsPermanent(run[n].tables, run[n].tables.bindings[k])
  {
    RunKeepsInv(h, run, n);
  }

  /** The authorization is one the revoke is about. */
  predicate IsNamed(a: Authorization, k: KeyId, job: Job)
    requires Revokes(job)
  {
    match job
    case RevokeByHash(user, hash) => a.user == user && a.hash == hash
    case RevokeByUserExcept(user, keep) => a.user == user && k != keep
  }

  /**
   A committing revoke removes, of its candidates, exactly those the named user still owns at
   that moment (with the named hash, or other than the kept key), together with their cursors;
   every other row stays.
   */
  lemma RevokeRemovesWhatIsStillOwned(h: KeyId -> int, run: seq<State>, n: nat, i: TxId, c: Choice)
    requires IsRun(h, run) && n + 1 < |run| && TxStep(h, run[n], run[n + 1], i, c)
    requires Commits(run[n].txs[i]) && Revokes(run[n].txs[i].job)
    ensures
      var tx, t, t' := run[n].txs[i], run[n].tables, run[n + 1].tables;
      && (forall k | k in t.auths :: k !in t'.auths <==> k in tx.rows && IsNamed(t.auths[k], k, tx.job))
      && (forall k | k in t'.auths :: k in t.auths && t'.auths[k] == t.auths[k])
      && (forall k, u | (k, u) in t.cursors ::
            (k, u) !in t'.cursors <==> k in tx.rows && k in t.auths && IsNamed(t.auths[k], k, tx.job))
      && (forall p | p in t'.cursors :: p in t.cursors && t'.cursors[p] == t.cursors[p])
      && t'.keys == t.keys && t'.bindings == t.bindings
      && t'.users == t.users && t'.watermarks == t.watermarks && t'.retention == t.retention
  {
    RunKeepsInv(h, run, n);
    var tx, t := run[n].txs[i], run[n].tables;
    assert Facts(t, tx);
    assert tx.targets == Revalidated(t, tx);
  }

  /**
   A Bind that commits does what the same call would do alone at that moment: every check still
   passes, and the layer and baseline it read under its locks are those of the tables it writes to.
   */
  lemma BindIsAtomic(h: KeyId -> int, run: seq<State>, n: nat, i: TxId, c: Choice)
    requires IsRun(h, run) && n + 1 < |run| && TxStep(h, run[n], run[n + 1], i, c)
    requires Commits(run[n].txs[i]) && run[n].txs[i].job.Bind?
    ensures
      var tx, t := run[n].txs[i], run[n].tables;
      var k, a := tx.job.key, tx.job.auth;
      && AuthStores.BindVerdict(t, k, a.user).Ok?
      && run[n + 1].tables == BindWrites(t, k, a, t.keys[k].layer, tx.job.date)
  {
    RunKeepsInv(h, run, n);
    assert CursorLock(run[n].txs[i].job.key) in run[n].txs[i].held;
  }

  /**
   Right after a Bind commits, its authorization stands, retained floor <= observed <= pts ==
   contiguous watermark, and neither another key nor another account has changed.
   */
  lemma BindLeavesBaseline(h: KeyId -> int, run: seq<State>, n: nat, i: TxId, c: Choice)
    requires IsRun(h, run) && n + 1 < |run| && TxStep(h, run[n], run[n + 1], i, c)
    requires Commits(run[n].txs[i]) && run[n].txs[i].job.Bind?
    ensures
      var tx, t, t' := run[n].txs[i], run[n].tables, run[n + 1].tables;
      var k, a := tx.job.key, tx.job.auth;
      && IsPermanent(t, k) && a.user in t.users && t.users[a.user]
      && k in t'.auths && t'.auths[k] == a.(layer := t.keys[k].layer, created := tx.job.date)
      && (forall x | x != k :: (x in t.auths <==> x in t'.auths) && (x in t.auths ==> t.auths[x] == t'.auths[x]))
      && (forall u :: (k, u) in t'.cursors <==> u == a.user)
      && var cursor := t'.cursors[(k, a.user)];
      && a.user in t'.retention && a.user in t'.watermarks
      && t'.retention[a.user] <= cursor.observed <= cursor.pts == t'.watermarks[a.user]
      && ((k, a.user) in t.cursors ==> Forward(t.cursors[(k, a.user)], cursor))
      && (forall x, u | x != k ::
            ((x, u) in t.cursors <==> (x, u) in t'.cursors) && ((x, u) in t.cursors ==> t.cursors[(x, u)] == t'.cursors[(x, u)]))
      && (forall u :: At(t'.watermarks, u) == At(t.watermarks, u) && At(t'.retention, u) == At(t.retention, u))
      && t'.users == t.users && t'.keys == t.keys && t'.bindings == t.bindings
  {
    BindIsAtomic(h, run, n, i, c);
    var tx, t := run[n].txs[i], run[n].tables;
    BindBaseline(t, tx.job.key, tx.job.auth, t.keys[tx.job.key].layer, tx.job.date);
  }

  /** No field of a cursor goes back. */
  predicate Forward(c: Cursor, d: Cursor) {
    c.pts <= d.pts && c.qts <= d.qts && c.date <= d.date && c.seqNo <= d.seqNo && c.observed <= d.observed
  }

  /**
   A committing Delete removes the key it was given, the temporary keys bound to it at that
   moment, and nothing else; no binding is left pointing at a removed key, so the RESTRICT
   foreign key is never violated.
   */
  lemma DeleteRemovesKeyAndItsTemporaries(h: KeyId -> int, run: seq<State>, n: nat, i: TxId, c: Choice)
    requires IsRun(h, run) && n + 1 < |run| && TxStep(h, run[n], run[n + 1], i, c)
    requires Commits(run[n].txs[i]) && run[n].txs[i].job.DeleteKey?
    ensures
      var t, t', raw := run[n].tables, run[n + 1].tables, run[n].txs[i].job.raw;
      && raw in t.keys
      && (forall k | k in t.keys :: k !in t'.keys <==> k == raw || (k in t.bindings && t.bindings[k] == raw))
      && (forall k | k in t'.keys :: k in t.keys && t'.keys[k] == t.keys[k])
      && RestrictHolds(t, raw, BoundTo(t, raw))
      && (forall k | k in t.bindings :: k in t'.bindings <==> k in t'.keys)
      && (forall k | k in t.auths :: k in t'.auths <==> k in t'.keys)
      && (forall k | k in t'.bindings :: t'.bindings[k] == t.bindings[k])
      && (forall k | k in t'.auths :: k in t.auths && t'.auths[k] == t.auths[k])
      && (forall k, u | (k, u) in t.cursors ::
            (k, u) !in t'.cursors <==> k == raw || (k in t.bindings && t.bindings[k] == raw))
      && (forall p | p in t'.cursors :: p in t.cursors && t'.cursors[p] == t.cursors[p])
      && t'.users == t.users && t'.watermarks == t.watermarks && t'.retention == t.retention
  {
    RunKeepsInv(h, run, n);
    DeleteKeepsIntact(run[n].tables, run[n].txs[i].job.raw);
    DeletionRemoves(run[n].tables, run[n].txs[i].job.raw);
  }

  lemma DeletionRemoves(t: Tables, raw: KeyId)
    requires Intact(t) && raw in t.keys
    ensures
      var t' := DeleteWrites(t, raw, BoundTo(t, raw));
      && (forall k | k in t.keys :: k !in t'.keys <==> k == raw || (k in t.bindings && t.bindings[k] == raw))
      && (forall k | k in t'.keys :: k in t.keys && t'.keys[k] == t.keys[k])
      && (forall k | k in t.bindings :: k in t'.bindings <==> k in t'.keys)
      && (forall k | k in t.auths :: k in t'.auths <==> k in t'.keys)
      && (forall k | k in t'.bindings :: t'.bindings[k] == t.bindings[k])
      && (forall k | k in t'.auths :: k in t.auths && t'.auths[k] == t.auths[k])
      && (forall k, u | (k, u) in t.cursors ::
            (k, u) !in t'.cursors <==> k == raw || (k in t.bindings && t.bindings[k] == raw))
      && (forall p | p in t'.cursors :: p in t.cursors && t'.cursors[p] == t.cursors[p])
  {
    assert forall k | k in t.auths :: IsPermanent(t, k);
    assert forall k | k in t.bindings :: IsTemporary(t, k);
  }

  /**
   Every commit writes only rows its transaction has locked: what other transactions rely on is
   untouched, down to the last field of an authorization whose row or whose key's gate they hold.
   */
  lemma CommitsAreIsolated(h: KeyId -> int, run: seq<State>, n: nat, i: TxId, j: TxId, c: Choice)
    requires IsRun(h, run) && n + 1 < |run| && TxStep(h, run[n], run[n + 1], i, c)
    requires j in run[n].txs && i != j
    ensures Untouched(h, run[n].tables, run[n + 1].tables, run[n].txs[j].held)
    ensures
      var t, t' := run[n].tables, run[n + 1].tables;
      forall k | k in t'.auths && Gate(h(k)) in run[n].txs[j].held :: k in t.auths && t'.auths[k] == t.auths[k]
  {
    RunKeepsInv(h, run, n);
    CommitUntouched(h, run[n].tables, run[n].txs[i], run[n].txs[j].held);
    forall k | k in run[n + 1].tables.auths && Gate(h(k)) in run[n].txs[j].held
      ensures k in run[n].tables.auths && run[n + 1].tables.auths[k] == run[n].tables.auths[k]
    {
      GatedRowsStay(h, run[n].tables, run[n].txs[i], run[n].txs[j].held, k);
    }
  }

  // ---- Keys ----

  /** Both rows have the same body, expiry and layer. */
  predicate SameKind(a: KeyRow, b: KeyRow) {
    a.body == b.body && a.expiresAt == b.expiresAt && a.layer == b.layer && a.observation == b.observation
  }

  /** Every key that is in both tables has the same kind in them. */
  predicate KindsKept(t: Tables, t': Tables) {
    forall k | k in t.keys && k in t'.keys :: SameKind(t.keys[k], t'.keys[k])
  }

  lemma EffectKeepsKinds(t: Tables, tx: Tx)
    ensures KindsKept(t, Effect(t, tx))
  {
  }

  lemma SaveKeepsKinds(t: Tables, k: KeyId, body: seq<bv8>, salt: int, expiresAt: int)
    requires SaveAllowed(t, k, body, expiresAt)
    ensures KindsKept(t, SaveWrites(t, k, body, salt, expiresAt))
  {
  }

  lemma StepKeepsKinds(h: KeyId -> int, s: State, s': State)
    requires Step(h, s, s')
    ensures KindsKept(s.tables, s'.tables)
  {
    if i, c :| TxStep(h, s, s', i, c) {
      EffectKeepsKinds(s.tables, s.txs[i]);
    } else if k, body, salt, expiresAt :| SaveStep(s, s', k, body, salt, expiresAt) {
      SaveKeepsKinds(s.tables, k, body, salt, expiresAt);
    }
  }

  /** As long as a key is there, nothing turns a temporary key into a permanent one, or changes its body or layer. */
  lemma {:induction false} KeysKeepTheirKind(h: KeyId -> int, run: seq<State>, m: nat, n: nat, k: KeyId)
    requires IsRun(h, run) && m <= n < |run| && forall x | m <= x <= n :: k in run[x].tables.keys
    ensures SameKind(run[m].tables.keys[k], run[n].tables.keys[k])
    ensures IsTemporary(run[m].tables, k) == IsTemporary(run[n].tables, k)
    decreases n
  {
    if m < n {
      KeysKeepTheirKind(h, run, m, n - 1, k);
      assert StepsOn(h, run, n - 1);
      StepKeepsKinds(h, run[n - 1], run[n]);
    }
  }
}
