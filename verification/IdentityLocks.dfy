/**
 Transactions over the authorization tables, one lock request or one commit a step.

 A transaction holds what it has locked until it ends. It takes advisory gates in
 ascending order of their hash, then rows. AuthKeyStore::Delete locks a temporary key
 before its permanent key, or a permanent key before its temporary keys, depending on
 the key it was given, so there is no fixed order of rows. What keeps the system from
 deadlock is that whoever keeps a permanent key's row also keeps that key's gate.
 */
module IdentityLocks {
  import opened AuthTables

  datatype Lock =
    | UserGate(user: UserId)
    | UserRow(user: UserId)
    | Gate(hash: int)
    | KeyLock(key: KeyId)
    | AuthLock(key: KeyId)
    | CursorLock(key: KeyId)       // every update_states row of the key
    | WatermarkLock(user: UserId)
    | RetentionLock(user: UserId)

  datatype Job =
    | Bind(key: KeyId, auth: Authorization, date: int)
    | RevokeByHash(user: UserId, hash: int)
    | RevokeByUserExcept(user: UserId, keep: KeyId)
    | DeleteKey(raw: KeyId)

  /** What the lock-free read of a raw key saw. */
  datatype Hint = Hint(expiresAt: int, bound: bool, perm: KeyId) {
    predicate HasIdentity() { bound || expiresAt == 0 }
    function Identity(raw: KeyId): KeyId { if bound then perm else raw }
  }

  datatype Phase =
    | Begin
    | TakeUserRow
    | TakeGates(gatesTaken: nat)
    | TakeRows(rowsPassed: nat)
    | Recheck
    | TakePermanentRow
    | TakeWatermark
    | TakeRetention
    | Doom
    | Statement(locksLeft: set<Lock>)
    | Rollback(retry: bool)
    | Done(committed: bool)

  datatype Tx = Tx(
    job: Job, attempt: nat, phase: Phase, held: set<Lock>,
    gates: seq<int>, rows: seq<KeyId>,
    hint: Hint, expiresAt: int,               // Delete: the hint, then the expiry read under the row lock
    layer: int, pts: int, floor: int,         // Bind: read under row locks
    targets: set<KeyId>)                      // keys the writing statements will touch

  datatype Choice = Choice(candidates: seq<KeyId>, gates: seq<int>, lock: Lock)

  function Fresh(job: Job, attempt: nat): Tx {
    Tx(job, attempt, Begin, {}, [], [], Hint(0, false, 0), 0, 0, 0, 0, {})
  }

  // ---- One transaction ----

  function KeyLocks(keys: set<KeyId>): (r: set<Lock>)
    ensures forall l :: l in r <==> l.KeyLock? && l.key in keys
  {
    set k | k in keys :: KeyLock(k)
  }

  function AuthLocks(keys: set<KeyId>): (r: set<Lock>)
    ensures forall l :: l in r <==> l.AuthLock? && l.key in keys
  {
    set k | k in keys :: AuthLock(k)
  }

  function CursorLocks(keys: set<KeyId>): (r: set<Lock>)
    ensures forall l :: l in r <==> l.CursorLock? && l.key in keys
  {
    set k | k in keys :: CursorLock(k)
  }

  function UserGates(u: UserId): set<Lock> { if u <= 0 then {} else {UserGate(u)} }

  predicate Revokes(job: Job) { job.RevokeByHash? || job.RevokeByUserExcept? }

  /** The WHERE clause both reads of a revoke share. */
  predicate Selected(t: Tables, job: Job, k: KeyId)
    requires Revokes(job)
  {
    k in t.auths && t.auths[k].user == job.user &&
    (if job.RevokeByHash? then t.auths[k].hash == job.hash else k != job.keep)
  }

  function Revalidated(t: Tables, tx: Tx): (r: set<KeyId>)
    requires Revokes(tx.job)
    ensures forall k :: k in r <==> k in tx.rows && Selected(t, tx.job, k)
  {
    set k | k in tx.rows && Selected(t, tx.job, k)
  }

  /** The locks whose owner can keep tx waiting. */
  function Wants(t: Tables, tx: Tx): set<Lock> {
    match tx.phase
    case Begin => if tx.job.Bind? then UserGates(tx.job.auth.user) else {}
    case TakeUserRow => if tx.job.Bind? then {UserRow(tx.job.auth.user)} else {}
    case TakeGates(n) => if n < |tx.gates| then {Gate(tx.gates[n])} else {}
    case TakeRows(n) => if n < |tx.rows| then {KeyLock(tx.rows[n])} else {}
    case Recheck => {}
    case TakePermanentRow => {KeyLock(tx.hint.perm)}
    case TakeWatermark => if tx.job.Bind? then {WatermarkLock(tx.job.auth.user)} else {}
    case TakeRetention => if tx.job.Bind? then {RetentionLock(tx.job.auth.user)} else {}
    case Statement(left) => left
    case Doom => {}
    case Rollback(_) => {}
    case Done(_) => {}
  }

  /** The locks the step needs: a statement takes its row locks one at a time, in any order. */
  function Needs(t: Tables, tx: Tx, c: Choice): set<Lock> {
    if tx.phase.Statement? && tx.phase.locksLeft != {} then {c.lock} else Wants(t, tx)
  }

  ghost predicate StrictlySorted(s: seq<int>) { forall i, j | 0 <= i < j < |s| :: s[i] < s[j] }

  /** The gates are the distinct hashes of the identities, in order: SELECT DISTINCT hashint8(id) ... ORDER BY. */
  ghost predicate GatesOf(h: KeyId -> int, ids: seq<KeyId>, gates: seq<int>) {
    StrictlySorted(gates) && (forall k | k in ids :: h(k) in gates) && (forall g | g in gates :: exists k | k in ids :: h(k) == g)
  }

  /** The choices a database may make: candidate rows, the order of gates, the next row of a statement. */
  ghost predicate Sensible(h: KeyId -> int, t: Tables, tx: Tx, c: Choice) {
    match tx.phase
    case Begin =>
      (match tx.job
       case Bind(key, _, _) => c.candidates == [key] && GatesOf(h, [key], c.gates)
       case RevokeByHash(_, _) =>
         && |c.candidates| <= 1
         && (c.candidates == [] <==> forall k | k in t.auths :: !Selected(t, tx.job, k))
         && (forall k | k in c.candidates :: Selected(t, tx.job, k))
         && GatesOf(h, c.candidates, c.gates)
       case RevokeByUserExcept(_, _) =>
         && StrictlySorted(c.candidates)
         && (forall k :: k in c.candidates <==> Selected(t, tx.job, k))
         && GatesOf(h, c.candidates, c.gates)
       case DeleteKey(raw) =>
         var hint := HintOf(t, raw);
         && c.candidates == [raw]
         && GatesOf(h, if hint.HasIdentity() then [hint.Identity(raw)] else [], c.gates))
    case Statement(left) => left != {} ==> c.lock in left
    case _ => true
  }

  function HintOf(t: Tables, raw: KeyId): Hint {
    Hint(if raw in t.keys then t.keys[raw].expiresAt else 0, raw in t.bindings,
         if raw in t.bindings then t.bindings[raw] else 0)
  }

  function End(tx: Tx, committed: bool): Tx { tx.(phase := Done(committed), held := {}) }

  function Abort(tx: Tx): Tx { tx.(phase := Rollback(false)) }

  function AfterBegin(t: Tables, tx: Tx, c: Choice): Tx {
    var ready := tx.(gates := c.gates, rows := c.candidates);
    match tx.job
    case Bind(_, auth, _) => ready.(phase := TakeUserRow, held := UserGates(auth.user))
    case DeleteKey(raw) =>
      if raw !in t.keys then End(tx, true)
      else ready.(hint := HintOf(t, raw), phase := TakeGates(0))
    case _ => if c.candidates == [] then End(tx, true) else ready.(phase := TakeGates(0))
  }

  function AfterUserRow(t: Tables, tx: Tx): Tx
    requires tx.job.Bind?
  {
    var u := tx.job.auth.user;
    if u !in t.users then Abort(tx)
    else
      var locked := tx.(held := tx.held + {UserRow(u)});
      if !t.users[u] then Abort(locked) else locked.(phase := TakeGates(0))
  }

  function AfterRow(t: Tables, tx: Tx): Tx
    requires tx.phase.TakeRows?
  {
    var n := tx.phase.rowsPassed;
    if n >= |tx.rows| then tx.(phase := if tx.job.Bind? then TakeWatermark else Recheck)
    else
      var k := tx.rows[n];
      if k !in t.keys then
        match tx.job
        case Bind(_, _, _) => Abort(tx)
        case RevokeByUserExcept(_, _) => tx.(phase := TakeRows(n + 1))
        case _ => End(tx, true)
      else
        var row := t.keys[k];
        var locked := tx.(held := tx.held + {KeyLock(k)}, phase := TakeRows(n + 1));
        match tx.job
        case Bind(_, _, _) => if Unusable(row) then Abort(locked) else locked.(layer := row.layer)
        case DeleteKey(_) => locked.(expiresAt := row.expiresAt)
        case _ => locked
  }

  function AfterRecheck(t: Tables, tx: Tx): Tx {
    match tx.job
    case Bind(_, _, _) => tx
    case DeleteKey(raw) =>
      var now := HintOf(t, raw).(expiresAt := tx.expiresAt);
      if now.HasIdentity() != tx.hint.HasIdentity()
        || (now.HasIdentity() && now.Identity(raw) != tx.hint.Identity(raw))
        || now.bound != tx.hint.bound || now.expiresAt != tx.hint.expiresAt
      then tx.(phase := Rollback(true))
      else tx.(phase := if now.bound then TakePermanentRow else Doom)
    case _ =>
      var targets := Revalidated(t, tx);
      if targets == {} then End(tx, true)
      else tx.(targets := targets, phase := Statement(AuthLocks(targets) + CursorLocks(targets)))
  }

  function AfterPermanentRow(t: Tables, tx: Tx): Tx {
    var p := tx.hint.perm;
    if p !in t.keys then Abort(tx)
    else
      var locked := tx.(held := tx.held + {KeyLock(p)});
      if tx.expiresAt <= 0 || t.keys[p].expiresAt != 0 then Abort(locked) else locked.(phase := Doom)
  }

  function AfterRetention(t: Tables, tx: Tx): Tx
    requires tx.job.Bind?
  {
    var u, k := tx.job.auth.user, tx.job.key;
    var locked := tx.(floor := At(t.retention, u), held := tx.held + {RetentionLock(u)});
    if locked.floor > tx.pts then Abort(locked)
    else locked.(targets := {k}, phase := Statement({CursorLock(k), AuthLock(k)}))
  }

  /** The DELETE statement reads its doomed keys once and then locks every row it will remove. */
  function AfterDoom(t: Tables, tx: Tx): Tx
    requires tx.job.DeleteKey?
  {
    var doomed := BoundTo(t, tx.job.raw);
    var dead := doomed + {tx.job.raw};
    tx.(targets := doomed,
        phase := Statement(CursorLocks(dead) + AuthLocks(dead) + KeyLocks(doomed) - tx.held))
  }

  function AfterStatement(t: Tables, tx: Tx, c: Choice): Tx
    requires tx.phase.Statement?
  {
    var left := tx.phase.locksLeft;
    if left == {} then End(tx, true)
    else
      var locked := tx.(held := tx.held + {c.lock}, phase := Statement(left - {c.lock}));
      if tx.job.Bind? && c.lock == CursorLock(tx.job.key)
         && !UpsertAllowed(t, tx.job.key, tx.job.auth.user, tx.pts)
      then Abort(locked)
      else locked
  }

  /** The transaction after its next step; an aborted one releases its locks and may start over. */
  function After(t: Tables, tx: Tx, c: Choice): Tx {
    match tx.phase
    case Begin => AfterBegin(t, tx, c)
    case TakeUserRow => if tx.job.Bind? then AfterUserRow(t, tx) else tx
    case TakeGates(n) =>
      if n < |tx.gates| then tx.(held := tx.held + {Gate(tx.gates[n])}, phase := TakeGates(n + 1))
      else tx.(phase := TakeRows(0))
    case TakeRows(_) => AfterRow(t, tx)
    case Recheck => AfterRecheck(t, tx)
    case TakePermanentRow => AfterPermanentRow(t, tx)
    case TakeWatermark =>
      if tx.job.Bind? then
        tx.(pts := At(t.watermarks, tx.job.auth.user), held := tx.held + {WatermarkLock(tx.job.auth.user)},
            phase := TakeRetention)
      else tx
    case TakeRetention => if tx.job.Bind? then AfterRetention(t, tx) else tx
    case Doom => if tx.job.DeleteKey? then AfterDoom(t, tx) else tx
    case Statement(_) => AfterStatement(t, tx, c)
    case Rollback(retry) =>
      if retry && tx.attempt + 1 < MAX_ATTEMPTS then Fresh(tx.job, tx.attempt + 1) else End(tx, false)
    case Done(_) => tx
  }

  predicate Commits(tx: Tx) { tx.phase == Statement({}) }

  /** The tables after the step: only the commit of a writing transaction changes them. */
  function Effect(t: Tables, tx: Tx): Tables {
    if !Commits(tx) then t
    else
      match tx.job
      case Bind(key, auth, date) => BindWrites(t, key, auth, tx.layer, date)
      case DeleteKey(raw) => DeleteWrites(t, raw, tx.targets)
      case _ => RevokeWrites(t, tx.targets)
  }

  // ---- The whole system ----

  type TxId = nat

  datatype State = State(tables: Tables, txs: map<TxId, Tx>)

  ghost predicate Unlocked(s: State, locks: set<Lock>) {
    forall i | i in s.txs :: s.txs[i].held !! locks
  }

  ghost predicate Waits(s: State, a: TxId, b: TxId) {
    && a in s.txs && b in s.txs && a != b
    && !(Wants(s.tables, s.txs[a]) !! s.txs[b].held)
  }

  /** One step of transaction i. */
  ghost predicate TxStep(h: KeyId -> int, s: State, s': State, i: TxId, c: Choice) {
    && i in s.txs && !s.txs[i].phase.Done?
    && Sensible(h, s.tables, s.txs[i], c)
    && (forall j | j in s.txs && j != i :: s.txs[j].held !! Needs(s.tables, s.txs[i], c))
    && s' == State(Effect(s.tables, s.txs[i]), s.txs[i := After(s.tables, s.txs[i], c)])
  }

  ghost predicate StartStep(s: State, s': State, i: TxId, job: Job) {
    i !in s.txs && s' == s.(txs := s.txs[i := Fresh(job, 0)])
  }

  /** AuthKeyStore::Save, one statement in its own transaction. */
  ghost predicate SaveStep(s: State, s': State, k: KeyId, body: seq<bv8>, salt: int, expiresAt: int) {
    && Unlocked(s, {KeyLock(k)})
    && SaveAllowed(s.tables, k, body, expiresAt)
    && s' == s.(tables := SaveWrites(s.tables, k, body, salt, expiresAt))
  }

  /** AuthorizationStore::MarkPasswordPassed, one statement in its own transaction. */
  ghost predicate MarkPasswordPassedStep(s: State, s': State, k: KeyId, expected: UserId, now: int) {
    && Unlocked(s, {AuthLock(k)})
    && k in s.tables.auths && s.tables.auths[k].user == expected && s.tables.auths[k].pending
    && s' == s.(tables := s.tables.(auths := s.tables.auths[k := s.tables.auths[k].(pending := false, created := now)]))
  }

  /**
   The rest of the server: it may change any account, watermark, retained floor or cursor
   value whose row is not locked, but adds and removes no key, binding, authorization or cursor.
   */
  ghost predicate OutsideStep(s: State, s': State) {
    var t, t' := s.tables, s'.tables;
    && s'.txs == s.txs
    && t'.keys == t.keys && t'.bindings == t.bindings && t'.auths == t.auths
    && t'.cursors.Keys == t.cursors.Keys
    && (forall i | i in s.txs :: ReadsAgree(t, t', s.txs[i].held))
  }

  /** t' has the same account, watermark, floor and cursor values as t in the rows under these locks. */
  ghost predicate ReadsAgree(t: Tables, t': Tables, locks: set<Lock>) {
    && (forall u | UserRow(u) in locks :: (u in t.users <==> u in t'.users) && (u in t.users ==> t.users[u] == t'.users[u]))
    && (forall u | WatermarkLock(u) in locks :: At(t.watermarks, u) == At(t'.watermarks, u))
    && (forall u | RetentionLock(u) in locks :: At(t.retention, u) == At(t'.retention, u))
    && (forall k, u {:trigger (k, u) in t.cursors} | CursorLock(k) in locks ::
          ((k, u) in t.cursors <==> (k, u) in t'.cursors) && ((k, u) in t.cursors ==> t.cursors[(k, u)] == t'.cursors[(k, u)]))
  }

  ghost predicate Step(h: KeyId -> int, s: State, s': State) {
    || (exists i, c :: TxStep(h, s, s', i, c))
    || (exists i, job :: StartStep(s, s', i, job))
    || (exists k, body, salt, expiresAt :: SaveStep(s, s', k, body, salt, expiresAt))
    || (exists k, u, now :: MarkPasswordPassedStep(s, s', k, u, now))
    || OutsideStep(s, s')
  }

  ghost predicate Init(s: State) { Intact(s.tables) && s.txs == map[] }

  ghost predicate StepsOn(h: KeyId -> int, run: seq<State>, i: nat) { i + 1 < |run| && Step(h, run[i], run[i + 1]) }

  ghost predicate IsRun(h: KeyId -> int, run: seq<State>) {
    && run != []
    && Init(run[0])
    && forall i | 0 <= i < |run| - 1 :: StepsOn(h, run, i)
  }
}
