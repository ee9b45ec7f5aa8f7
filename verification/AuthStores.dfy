/**
 The authorization and auth-key stores: the statements of each transaction in the order
 the stores send them, run without interference. Each method is tied to the writes the
 transaction system commits (AuthTables).
 */
module AuthStores {
  import opened AuthTables

  // ---- WithAuthIdentityTx ----

  datatype Attempt = Committed | IdentityChanged | SqlError(retryable: bool) | OtherError

  datatype TxResult = Success(after: nat) | Unstable | Thrown(at: nat)

  /** Attempt i failed in a way the loop answers with a fresh transaction. */
  predicate Retried(attempts: seq<Attempt>, i: nat)
    requires i < |attempts|
  {
    attempts[i].IdentityChanged? || (attempts[i].SqlError? && attempts[i].retryable && i + 1 < MAX_ATTEMPTS)
  }

  /** The bounded retry loop, given how each attempt's function and commit would end. */
  method WithAuthIdentityTx(attempts: seq<Attempt>) returns (r: TxResult)
    requires |attempts| == MAX_ATTEMPTS
    ensures r.Success? ==> r.after < MAX_ATTEMPTS && attempts[r.after].Committed? && forall i | 0 <= i < r.after :: Retried(attempts, i)
    ensures r.Thrown? ==>
      && r.at < MAX_ATTEMPTS && !attempts[r.at].Committed? && !Retried(attempts, r.at)
      && forall i | 0 <= i < r.at :: Retried(attempts, i)
    ensures r.Unstable? <==> attempts[MAX_ATTEMPTS - 1].IdentityChanged? && forall i | 0 <= i < MAX_ATTEMPTS :: Retried(attempts, i)
  {
    var attempt := 0;
    while attempt < MAX_ATTEMPTS
      invariant attempt <= MAX_ATTEMPTS
      invariant forall i | 0 <= i < attempt :: Retried(attempts, i)
    {
      assert attempts[attempt].Committed? ==> !Retried(attempts, attempt);
      match attempts[attempt] {
        case Committed => return Success(attempt);
        case IdentityChanged =>
        case SqlError(retryable) =>
          if !(attempt + 1 < MAX_ATTEMPTS && retryable) { return Thrown(attempt); }
        case OtherError => return Thrown(attempt);
      }
      attempt := attempt + 1;
    }
    assert Retried(attempts, MAX_ATTEMPTS - 1);
    return Unstable;
  }

  // ---- The stores ----

  datatype Error =
    | UserNotFound | AccountDeleted | KeyNotFound | KeyNotPermanent | LayerInvariant
    | FloorAboveWatermark | CursorOutsideWatermark | InvalidExpiry | MetadataConflict | StateChanged

  datatype Result = Ok | Failed(error: Error)

  /** Which check of Bind fails first. */
  function BindVerdict(t: Tables, k: KeyId, u: UserId): Result {
    if u !in t.users then Failed(UserNotFound)
    else if !t.users[u] then Failed(AccountDeleted)
    else if k !in t.keys then Failed(KeyNotFound)
    else if t.keys[k].expiresAt != 0 then Failed(KeyNotPermanent)
    else if Unusable(t.keys[k]) then Failed(LayerInvariant)
    else if At(t.retention, u) > At(t.watermarks, u) then Failed(FloorAboveWatermark)
    else if !UpsertAllowed(t, k, u, At(t.watermarks, u)) then Failed(CursorOutsideWatermark)
    else Ok
  }

  /** A row of authorizations, with its key. */
  datatype Row = Row(key: KeyId, auth: Authorization)

  function KeysOf(rows: seq<Row>): set<KeyId> { set i | 0 <= i < |rows| :: rows[i].key }

  lemma KeysOfMore(rows: seq<Row>, row: Row)
    ensures KeysOf(rows + [row]) == KeysOf(rows) + {row.key}
  {
    var more := rows + [row];
    assert forall i | 0 <= i < |rows| :: more[i] == rows[i];
    assert more[|rows|] == row;
    forall k | k in KeysOf(rows) + {row.key} ensures k in KeysOf(more) {
      if k in KeysOf(rows) {
        var i :| 0 <= i < |rows| && rows[i].key == k;
        assert more[i].key == k;
      }
    }
  }

  function Outside<V>(m: map<KeyId, V>, dead: set<KeyId>): map<KeyId, V> { map k | k in m && k !in dead :: m[k] }

  lemma WithoutBoth<V>(m: map<KeyId, V>, a: set<KeyId>, b: set<KeyId>)
    ensures Outside(Outside(m, a), b) == Outside(m, a + b)
  {
  }

  predicate HasHash(auths: map<KeyId, Authorization>, user: UserId, hash: int, k: KeyId) {
    k in auths && auths[k].user == user && auths[k].hash == hash
  }

  predicate IsOthers(auths: map<KeyId, Authorization>, user: UserId, keep: KeyId, k: KeyId) {
    k in auths && auths[k].user == user && k != keep
  }

  /** ORDER BY created_at, auth_key_id. */
  predicate Earlier(a: Row, b: Row) {
    a.auth.created < b.auth.created || (a.auth.created == b.auth.created && a.key < b.key)
  }

  class AuthDatabase {
    var users: map<UserId, bool>
    var keys: map<KeyId, KeyRow>
    var bindings: map<KeyId, KeyId>
    var auths: map<KeyId, Authorization>
    var cursors: map<(KeyId, UserId), Cursor>
    var watermarks: map<UserId, int>
    var retention: map<UserId, int>

    ghost function View(): Tables
      reads this
    {
      Tables(users, keys, bindings, auths, cursors, watermarks, retention)
    }

    method Bind(k: KeyId, a: Authorization, date: int) returns (r: Result)
      modifies this
      ensures r == BindVerdict(old(View()), k, a.user)
      ensures r == Failed(UserNotFound) <==> a.user !in old(users)
      ensures r == Failed(AccountDeleted) <==> a.user in old(users) && !old(users)[a.user]
      ensures r == Failed(KeyNotFound) <==> a.user in old(users) && old(users)[a.user] && k !in old(keys)
      ensures r == Failed(KeyNotPermanent) <==> a.user in old(users) && old(users)[a.user] && k in old(keys) && old(keys)[k].expiresAt != 0
      ensures r == Failed(LayerInvariant) <==>
        && a.user in old(users) && old(users)[a.user] && IsPermanent(old(View()), k)
        && !(0 <= old(keys)[k].layer && (old(keys)[k].observation == 0 || (old(keys)[k].observation > 0 && old(keys)[k].layer > 0)))
      ensures r.Ok? ==> IsPermanent(old(View()), k) && k in auths && auths[k] == a.(layer := old(keys)[k].layer, created := date)
      ensures r.Ok? ==> View() == BindWrites(old(View()), k, a, old(keys)[k].layer, date)
      ensures r.Failed? ==> View() == old(View())
    {
      var u := a.user;
      if u !in users { return Failed(UserNotFound); }
      if !users[u] { return Failed(AccountDeleted); }
      if k !in keys { return Failed(KeyNotFound); }
      var row := keys[k];
      if row.expiresAt != 0 { return Failed(KeyNotPermanent); }
      if row.layer < 0 || row.observation < 0 || (row.observation > 0 && row.layer == 0) { return Failed(LayerInvariant); }

      var undo := (watermarks, retention);
      var pts, floor := LockBaseline(u);
      if floor > pts {
        watermarks, retention := undo.0, undo.1;
        return Failed(FloorAboveWatermark);
      }
      var upserted := UpsertOwnCursor(k, u, pts, floor, date);
      if !upserted {
        watermarks, retention := undo.0, undo.1;
        return Failed(CursorOutsideWatermark);
      }
      cursors := map p | p in cursors && !(p.0 == k && p.1 != u) :: cursors[p];
      auths := auths[k := a.(layer := row.layer, created := date)];
      return Ok;
    }

    /** Inserts the two rows if they are missing and reads them under lock. */
    method LockBaseline(u: UserId) returns (pts: int, floor: int)
      modifies this`watermarks, this`retention
      ensures pts == At(old(watermarks), u) && floor == At(old(retention), u)
      ensures watermarks == old(watermarks)[u := pts] && retention == old(retention)[u := floor]
    {
      if u !in watermarks { watermarks := watermarks[u := 0]; }
      pts := watermarks[u];
      if u !in retention { retention := retention[u := 0]; }
      floor := retention[u];
      assert watermarks == old(watermarks)[u := pts] && retention == old(retention)[u := floor];
    }

    /** INSERT ... ON CONFLICT DO UPDATE ... WHERE; false when the guard leaves the row alone. */
    method UpsertOwnCursor(k: KeyId, u: UserId, pts: int, floor: int, date: int) returns (done: bool)
      modifies this`cursors
      ensures done <==> UpsertAllowed(old(View()), k, u, pts)
      ensures cursors == if done then old(cursors)[(k, u) := UpsertCursor(old(View()), k, u, pts, floor, date)] else old(cursors)
    {
      if (k, u) in cursors {
        var c := cursors[(k, u)];
        if !(c.pts >= 0 && c.pts <= pts && c.observed <= pts) { return false; }
        cursors := cursors[(k, u) := Cursor(Max(c.pts, pts), Max(c.qts, 0), Max(c.date, date), Max(c.seqNo, 0), Max(c.observed, floor))];
      } else {
        cursors := cursors[(k, u) := Cursor(pts, 0, date, 0, floor)];
      }
      return true;
    }

    method MarkPasswordPassed(k: KeyId, expected: UserId, now: int) returns (r: Result)
      modifies this`auths
      ensures r.Ok? <==> k in old(auths) && old(auths)[k].user == expected && old(auths)[k].pending
      ensures r.Ok? ==> auths == old(auths)[k := old(auths)[k].(pending := false, created := now)]
      ensures r.Failed? ==> auths == old(auths)
    {
      if k in auths && auths[k].user == expected && auths[k].pending {
        auths := auths[k := auths[k].(pending := false, created := now)];
        return Ok;
      }
      return Failed(StateChanged);
    }

    /** Finds a candidate, and revokes it if it is still what it was found as. */
    method RevokeByHash(user: UserId, hash: int) returns (revoked: seq<Row>)
      modifies this`auths, this`cursors
      ensures revoked == [] ==> View() == old(View())
      ensures revoked != [] ==>
        && |revoked| == 1 && HasHash(old(auths), user, hash, revoked[0].key) && revoked[0].auth == old(auths)[revoked[0].key]
        && View() == RevokeWrites(old(View()), {revoked[0].key})
      ensures revoked != [] ==> old(auths)[revoked[0].key].user == user && old(auths)[revoked[0].key].hash == hash
      ensures Intact(old(View())) ==> (revoked == [] <==> forall k | k in old(auths) :: !HasHash(old(auths), user, hash, k))
      ensures Intact(old(View())) && revoked == [] ==> forall k | k in old(auths) :: old(auths)[k].user != user || old(auths)[k].hash != hash
    {
      if forall k | k in auths :: !HasHash(auths, user, hash, k) { return []; }
      var candidate :| candidate in auths && HasHash(auths, user, hash, candidate);
      revoked := RevokeCandidate(user, hash, candidate);
      if Intact(old(View())) { assert IsPermanent(old(View()), candidate); }
    }

    /** The second half, after the locks: by now the candidate may be gone, or somebody else's. */
    method RevokeCandidate(user: UserId, hash: int, candidate: KeyId) returns (revoked: seq<Row>)
      modifies this`auths, this`cursors
      ensures revoked != [] <==> candidate in keys && HasHash(old(auths), user, hash, candidate)
      ensures revoked != [] <==>
        candidate in keys && candidate in old(auths) && old(auths)[candidate].user == user && old(auths)[candidate].hash == hash
      ensures revoked != [] ==>
        && revoked == [Row(candidate, old(auths)[candidate])]
        && View() == RevokeWrites(old(View()), {candidate})
      ensures revoked == [] ==> View() == old(View())
    {
      if candidate !in keys { return []; }
      if !HasHash(auths, user, hash, candidate) { return []; }
      revoked := [Row(candidate, auths[candidate])];
      DeleteAuthorizations({candidate});
    }

    method RevokeByUserExcept(user: UserId, keep: KeyId) returns (revoked: seq<Row>)
      modifies this`auths, this`cursors
      ensures forall k | k in old(auths) :: k in auths <==> old(auths)[k].user != user || k == keep
      ensures forall k | k in auths :: k in old(auths) && auths[k] == old(auths)[k]
      ensures View() == RevokeWrites(old(View()), set k | k in old(auths) && IsOthers(old(auths), user, keep, k))
      ensures KeysOf(revoked) == set k | k in old(auths) && IsOthers(old(auths), user, keep, k)
      ensures forall i | 0 <= i < |revoked| :: revoked[i].key in old(auths) && revoked[i].auth == old(auths)[revoked[i].key]
      ensures forall i, j | 0 <= i < j < |revoked| :: Earlier(revoked[i], revoked[j])
    {
      var candidates := set k | k in auths && IsOthers(auths, user, keep, k);
      revoked := RevokeCandidates(user, keep, candidates);
      assert (set k | k in candidates && IsOthers(old(auths), user, keep, k)) == candidates;
    }

    /** The second half, after the locks: candidates that have changed hands are left alone. */
    method RevokeCandidates(user: UserId, keep: KeyId, candidates: set<KeyId>) returns (revoked: seq<Row>)
      modifies this`auths, this`cursors
      ensures forall k | k in old(auths) :: k in auths <==> k !in candidates || old(auths)[k].user != user || k == keep
      ensures forall k | k in auths :: k in old(auths) && auths[k] == old(auths)[k]
      ensures View() == RevokeWrites(old(View()), set k | k in candidates && IsOthers(old(auths), user, keep, k))
      ensures KeysOf(revoked) == set k | k in candidates && IsOthers(old(auths), user, keep, k)
      ensures forall i | 0 <= i < |revoked| :: revoked[i].key in old(auths) && revoked[i].auth == old(auths)[revoked[i].key]
      ensures forall i, j | 0 <= i < j < |revoked| :: Earlier(revoked[i], revoked[j])
    {
      var targets := set k | k in candidates && IsOthers(auths, user, keep, k);
      assert targets == set k | k in candidates && IsOthers(old(auths), user, keep, k);
      revoked := Ordered(targets);
      DeleteAuthorizations(targets);
    }

    /** SELECT ... ORDER BY created_at, auth_key_id. */
    method Ordered(targets: set<KeyId>) returns (rows: seq<Row>)
      requires forall k | k in targets :: k in auths
      ensures KeysOf(rows) == targets
      ensures forall i | 0 <= i < |rows| :: rows[i].key in auths && rows[i].auth == auths[rows[i].key]
      ensures forall i, j | 0 <= i < j < |rows| :: Earlier(rows[i], rows[j])
    {
      rows := [];
      var left := targets;
      while left != {}
        invariant left <= targets
        invariant KeysOf(rows) == targets - left
        invariant forall i | 0 <= i < |rows| :: rows[i].key in auths && rows[i].auth == auths[rows[i].key]
        invariant forall i, j | 0 <= i < j < |rows| :: Earlier(rows[i], rows[j])
        invariant forall i, k | 0 <= i < |rows| && k in left :: Earlier(rows[i], Row(k, auths[k]))
      {
        var first := First(left);
        ghost var before := rows;
        rows := rows + [Row(first, auths[first])];
        left := left - {first};
        assert forall i | 0 <= i < |before| :: rows[i] == before[i];
        KeysOfMore(before, rows[|before|]);
      }
    }

    /** The earliest of some rows. */
    method First(keys: set<KeyId>) returns (first: KeyId)
      requires keys != {} && forall k | k in keys :: k in auths
      ensures first in keys && forall k | k in keys && k != first :: Earlier(Row(first, auths[first]), Row(k, auths[k]))
    {
      assert (forall k :: k !in keys) ==> keys == {};
      first :| first in keys;
      var left := keys - {first};
      while left != {}
        invariant left < keys && first in keys && first !in left
        invariant forall k | k in keys && k != first && k !in left :: Earlier(Row(first, auths[first]), Row(k, auths[k]))
      {
        assert (forall k :: k !in left) ==> left == {};
        var k :| k in left;
        if Earlier(Row(k, auths[k]), Row(first, auths[first])) { first := k; }
        left := left - {k};
      }
    }

    /** DELETE FROM update_states, then DELETE FROM authorizations, both by key. */
    method DeleteAuthorizations(targets: set<KeyId>)
      modifies this`auths, this`cursors
      ensures View() == RevokeWrites(old(View()), targets)
    {
      cursors := map p | p in cursors && p.0 !in targets :: cursors[p];
      auths := map x | x in auths && x !in targets :: auths[x];
    }

    method Save(k: KeyId, body: seq<bv8>, salt: int, expiresAt: int) returns (r: Result)
      modifies this`keys
      ensures r.Ok? <==> SaveAllowed(old(View()), k, body, expiresAt)
      ensures r.Ok? <==> 0 <= expiresAt <= MAX_INT32 && (k in old(keys) ==> old(keys)[k].body == body && old(keys)[k].expiresAt == expiresAt)
      ensures r.Ok? ==> View() == SaveWrites(old(View()), k, body, salt, expiresAt)
      ensures r.Ok? ==>
        && k in keys && keys[k].body == body && keys[k].salt == salt && keys[k].expiresAt == expiresAt
        && keys[k].layer == (if k in old(keys) then old(keys)[k].layer else 0)
        && keys[k].observation == (if k in old(keys) then old(keys)[k].observation else 0)
        && keys == old(keys)[k := keys[k]]
      ensures r.Failed? ==> View() == old(View())
      ensures r == Failed(InvalidExpiry) <==> !(0 <= expiresAt <= MAX_INT32)
    {
      if expiresAt < 0 || expiresAt > MAX_INT32 { return Failed(InvalidExpiry); }
      if k in keys {
        if keys[k].body != body || keys[k].expiresAt != expiresAt { return Failed(MetadataConflict); }
        keys := keys[k := keys[k].(salt := salt)];
      } else {
        keys := keys[k := KeyRow(body, salt, expiresAt, 0, 0)];
      }
      return Ok;
    }

    /** The four deletions of the one statement; temporary keys go before their permanent key. */
    method Delete(raw: KeyId)
      requires Intact(View())
      modifies this`keys, this`bindings, this`auths, this`cursors
      ensures raw !in old(keys) ==> View() == old(View())
      ensures raw in old(keys) ==> View() == DeleteWrites(old(View()), raw, BoundTo(old(View()), raw))
    {
      if raw !in keys { return; }
      var doomed := set x | x in bindings && bindings[x] == raw;
      assert doomed == BoundTo(old(View()), raw);
      cursors := map p | p in cursors && p.0 !in doomed + {raw} :: cursors[p];
      DeleteKeys(doomed);
      assert forall x | x in bindings :: bindings[x] != raw;
      DeleteKeys({raw});
      ghost var dead := doomed + {raw};
      WithoutBoth(old(keys), doomed, {raw});
      WithoutBoth(old(bindings), doomed, {raw});
      WithoutBoth(old(auths), doomed, {raw});
    }

    /** DELETE FROM auth_keys: refused while a binding points at a deleted key, cascading to bindings and authorizations. */
    method DeleteKeys(dead: set<KeyId>)
      requires forall x | x in bindings && x !in dead :: bindings[x] !in dead
      modifies this`keys, this`bindings, this`auths
      ensures keys == Outside(old(keys), dead) && bindings == Outside(old(bindings), dead) && auths == Outside(old(auths), dead)
    {
      keys := map k | k in keys && k !in dead :: keys[k];
      bindings := map k | k in bindings && k !in dead :: bindings[k];
      auths := map k | k in auths && k !in dead :: auths[k];
    }
  }
}
