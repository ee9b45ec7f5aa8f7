/**
 The tables behind authorizations, and the writes of the four transactions that
 change them: Bind, the two Revoke forms and AuthKeyStore::Delete.

 A transaction's statements become visible together when it commits, so the
 writes of one transaction are one function from tables to tables. The classes
 in AuthStores.dfy run the same statements one after another.
 */
module AuthTables {
  type UserId = int
  type KeyId = int

  /** How often a transaction that meets a changed identity is tried. */
  const MAX_ATTEMPTS := 3

  datatype KeyRow = KeyRow(body: seq<bv8>, salt: int, expiresAt: int, layer: int, observation: int)

  datatype Authorization = Authorization(user: UserId, hash: int, layer: int, client: string, pending: bool, created: int)

  // A row of update_states.
  datatype Cursor = Cursor(pts: int, qts: int, date: int, seqNo: int, observed: int)

  datatype Tables = Tables(
    users: map<UserId, bool>,                 // true: deleted_at IS NULL
    keys: map<KeyId, KeyRow>,
    bindings: map<KeyId, KeyId>,              // temporary key -> permanent key
    auths: map<KeyId, Authorization>,
    cursors: map<(KeyId, UserId), Cursor>,
    watermarks: map<UserId, int>,             // contiguous_pts
    retention: map<UserId, int>)              // retained_through_pts

  function Max(a: int, b: int): int { if a < b then b else a }

  function At(m: map<UserId, int>, u: UserId): int { if u in m then m[u] else 0 }

  predicate IsPermanent(t: Tables, k: KeyId) { k in t.keys && t.keys[k].expiresAt == 0 }

  predicate IsTemporary(t: Tables, k: KeyId) { k in t.keys && t.keys[k].expiresAt > 0 }

  // A bind must refuse this key row.
  predicate Unusable(row: KeyRow) {
    row.expiresAt != 0 || row.layer < 0 || row.observation < 0 || (row.observation > 0 && row.layer == 0)
  }

  /** What the schema and the four transactions together keep true of committed tables. */
  ghost predicate Intact(t: Tables) {
    && (forall k {:trigger t.bindings[k]} | k in t.bindings :: IsTemporary(t, k) && IsPermanent(t, t.bindings[k]))
    && (forall k {:trigger t.auths[k]} | k in t.auths :: IsPermanent(t, k) && (k, t.auths[k].user) in t.cursors)
    && (forall k, u {:trigger (k, u) in t.cursors} | k in t.auths && (k, u) in t.cursors :: u == t.auths[k].user)
  }

  /** The temporary keys bound to k. */
  function BoundTo(t: Tables, k: KeyId): (r: set<KeyId>)
    ensures forall x :: x in r <==> x in t.bindings && t.bindings[x] == k
  {
    set x | x in t.bindings && t.bindings[x] == k
  }

  // ---- AuthorizationStore::Bind ----

  /** The WHERE clause of the cursor upsert. */
  predicate UpsertAllowed(t: Tables, k: KeyId, u: UserId, pts: int) {
    (k, u) in t.cursors ==>
      var c := t.cursors[(k, u)];
      0 <= c.pts <= pts && c.observed <= pts
  }

  function UpsertCursor(t: Tables, k: KeyId, u: UserId, pts: int, floor: int, date: int): Cursor {
    if (k, u) in t.cursors then
      var c := t.cursors[(k, u)];
      Cursor(Max(c.pts, pts), Max(c.qts, 0), Max(c.date, date), Max(c.seqNo, 0), Max(c.observed, floor))
    else
      Cursor(pts, 0, date, 0, floor)
  }

  function BindWrites(t: Tables, k: KeyId, a: Authorization, layer: int, date: int): Tables {
    var pts, floor := At(t.watermarks, a.user), At(t.retention, a.user);
    var mine := t.cursors[(k, a.user) := UpsertCursor(t, k, a.user, pts, floor, date)];
    t.(watermarks := t.watermarks[a.user := pts],
       retention := t.retention[a.user := floor],
       cursors := map p | p in mine && !(p.0 == k && p.1 != a.user) :: mine[p],
       auths := t.auths[k := a.(layer := layer, created := date)])
  }

  /** v is the greater of a and b. */
  predicate IsGreater(v: int, a: int, b: int) { v >= a && v >= b && (v == a || v == b) }

  /** A new cursor starts at the baseline; every field of an old one is raised to it. */
  lemma UpsertRaises(t: Tables, k: KeyId, u: UserId, pts: int, floor: int, date: int)
    ensures
      var c' := UpsertCursor(t, k, u, pts, floor, date);
      && ((k, u) !in t.cursors ==> c'.pts == pts && c'.qts == 0 && c'.date == date && c'.seqNo == 0 && c'.observed == floor)
      && ((k, u) in t.cursors ==>
            var c := t.cursors[(k, u)];
            && IsGreater(c'.pts, c.pts, pts) && IsGreater(c'.qts, c.qts, 0) && IsGreater(c'.date, c.date, date)
            && IsGreater(c'.seqNo, c.seqNo, 0) && IsGreater(c'.observed, c.observed, floor))
  {
  }

  /** A committed Bind leaves the login baseline in order, and no cursor of another account on the key. */
  lemma BindBaseline(t: Tables, k: KeyId, a: Authorization, layer: int, date: int)
    requires UpsertAllowed(t, k, a.user, At(t.watermarks, a.user))
    requires At(t.retention, a.user) <= At(t.watermarks, a.user)
    ensures
      var t' := BindWrites(t, k, a, layer, date);
      && (k, a.user) in t'.cursors
      && (forall u | (k, u) in t'.cursors :: u == a.user)
      && var c := t'.cursors[(k, a.user)];
      && a.user in t'.retention && a.user in t'.watermarks
      && t'.retention[a.user] <= c.observed <= c.pts == t'.watermarks[a.user]
      && t'.watermarks[a.user] == At(t.watermarks, a.user)
  {
  }

  lemma BindKeepsIntact(t: Tables, k: KeyId, a: Authorization, layer: int, date: int)
    requires Intact(t) && IsPermanent(t, k)
    ensures Intact(BindWrites(t, k, a, layer, date))
  {
  }

  // ---- AuthorizationStore::RevokeByHash and RevokeByUserExcept ----

  function RevokeWrites(t: Tables, targets: set<KeyId>): Tables {
    t.(cursors := map p | p in t.cursors && p.0 !in targets :: t.cursors[p],
       auths := map k | k in t.auths && k !in targets :: t.auths[k])
  }

  lemma RevokeKeepsIntact(t: Tables, targets: set<KeyId>)
    requires Intact(t)
    ensures Intact(RevokeWrites(t, targets))
  {
  }

  // ---- AuthKeyStore::Delete ----

  /**
   The one DELETE statement: cursors of every doomed key, the doomed temporary keys,
   then the raw key. Bindings of a deleted temporary key and the authorization of a
   deleted key go with it (foreign keys with ON DELETE CASCADE).
   */
  function DeleteWrites(t: Tables, raw: KeyId, doomed: set<KeyId>): Tables {
    var dead := doomed + {raw};
    t.(cursors := map p | p in t.cursors && p.0 !in dead :: t.cursors[p],
       keys := map k | k in t.keys && k !in dead :: t.keys[k],
       bindings := map k | k in t.bindings && k !in dead :: t.bindings[k],
       auths := map k | k in t.auths && k !in dead :: t.auths[k])
  }

  /** perm_auth_key_id is RESTRICT: no binding may be left that points at a deleted key. */
  predicate RestrictHolds(t: Tables, raw: KeyId, doomed: set<KeyId>) {
    forall x | x in t.bindings && x !in doomed && x != raw :: t.bindings[x] != raw && t.bindings[x] !in doomed
  }

  lemma DeleteKeepsIntact(t: Tables, raw: KeyId)
    requires Intact(t)
    ensures RestrictHolds(t, raw, BoundTo(t, raw))
    ensures Intact(DeleteWrites(t, raw, BoundTo(t, raw)))
  {
  }

  // ---- AuthKeyStore::Save ----

  const MAX_INT32 := 0x7FFF_FFFF

  predicate ValidExpiry(expiresAt: int) { 0 <= expiresAt <= MAX_INT32 }

  /** The guarded upsert changes the salt of an identical key, adds a new key, or fails. */
  predicate SaveAllowed(t: Tables, k: KeyId, body: seq<bv8>, expiresAt: int) {
    ValidExpiry(expiresAt) && (k in t.keys ==> t.keys[k].body == body && t.keys[k].expiresAt == expiresAt)
  }

  function SaveWrites(t: Tables, k: KeyId, body: seq<bv8>, salt: int, expiresAt: int): Tables {
    t.(keys := t.keys[k := if k in t.keys then t.keys[k].(salt := salt) else KeyRow(body, salt, expiresAt, 0, 0)])
  }

  lemma SaveKeepsIntact(t: Tables, k: KeyId, body: seq<bv8>, salt: int, expiresAt: int)
    requires Intact(t) && SaveAllowed(t, k, body, expiresAt)
    ensures Intact(SaveWrites(t, k, body, salt, expiresAt))
    ensures forall x | x in t.keys ::
      && x in SaveWrites(t, k, body, salt, expiresAt).keys
      && SaveWrites(t, k, body, salt, expiresAt).keys[x].(salt := t.keys[x].salt) == t.keys[x]
  {
  }

  /**
   What a save stores: the row has this body, salt and expiry, so the key is temporary exactly
   when it expires; a new row starts without a layer, an old one keeps its own; no other row of
   any table changes.
   */
  lemma SaveStores(t: Tables, k: KeyId, body: seq<bv8>, salt: int, expiresAt: int)
    requires SaveAllowed(t, k, body, expiresAt)
    ensures
      var t' := SaveWrites(t, k, body, salt, expiresAt);
      && k in t'.keys
      && t'.keys[k].body == body && t'.keys[k].salt == salt && t'.keys[k].expiresAt == expiresAt
      && (k !in t.keys ==> t'.keys[k].layer == 0 && t'.keys[k].observation == 0)
      && (k in t.keys ==> t'.keys[k].layer == t.keys[k].layer && t'.keys[k].observation == t.keys[k].observation)
      && (IsTemporary(t', k) <==> expiresAt > 0) && (IsPermanent(t', k) <==> expiresAt == 0)
      && (forall x | x != k :: (x in t.keys <==> x in t'.keys) && (x in t.keys ==> t'.keys[x] == t.keys[x]))
      && t' == t.(keys := t'.keys)
  {
  }
}
