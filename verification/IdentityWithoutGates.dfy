/**
 The same transactions without the advisory gates: row locks alone. Two deletions, one of a
 temporary key and one of its permanent key, come to wait for each other forever.
 */
module IdentityWithoutGates {
  import opened AuthTables
  import opened IdentityLocks
  import opened IdentityDeadlock

  /** A step of transaction i, which has asked for no gate. */
  ghost predicate UngatedStep(h: KeyId -> int, s: State, s': State, i: TxId, c: Choice) {
    && i in s.txs && !s.txs[i].phase.Done?
    && c.gates == [] && (exists gates :: Sensible(h, s.tables, s.txs[i], c.(gates := gates)))
    && (forall j | j in s.txs && j != i :: s.txs[j].held !! Needs(s.tables, s.txs[i], c))
    && s' == State(Effect(s.tables, s.txs[i]), s.txs[i := After(s.tables, s.txs[i], c)])
  }

  ghost predicate Step(h: KeyId -> int, s: State, s': State) {
    (exists i, c :: UngatedStep(h, s, s', i, c)) || (exists i, job :: StartStep(s, s', i, job))
  }

  ghost predicate StepsOn(h: KeyId -> int, run: seq<State>, i: nat) { i + 1 < |run| && Step(h, run[i], run[i + 1]) }

  ghost predicate IsRun(h: KeyId -> int, run: seq<State>) {
    run != [] && Init(run[0]) && forall i | 0 <= i < |run| - 1 :: StepsOn(h, run, i)
  }

  lemma OneStepOn(h: KeyId -> int, run: seq<State>, s': State)
    requires IsRun(h, run) && Step(h, run[|run| - 1], s')
    ensures IsRun(h, run + [s'])
  {
    var on := run + [s'];
    forall n | 0 <= n < |on| - 1 ensures StepsOn(h, on, n) {
      assert on[n] == run[n] && (n + 1 < |run| ==> on[n + 1] == run[n + 1] && StepsOn(h, run, n));
    }
  }

  /** Transaction i goes on; nothing that it needs is held by the other. */
  lemma Go(h: KeyId -> int, run: seq<State>, i: TxId, j: TxId, raw: KeyId, lock: Lock, tx: Tx) returns (on: seq<State>)
    requires IsRun(h, run) && i != j
    requires
      var s, c := run[|run| - 1], Choice([raw], [], lock);
      && s.txs.Keys == {i, j} && s.txs[i].job == DeleteKey(raw) && !s.txs[i].phase.Done? && !Commits(s.txs[i])
      && (s.txs[i].phase.Statement? ==> lock in s.txs[i].phase.locksLeft)
      && s.txs[j].held !! Needs(s.tables, s.txs[i], c)
      && tx == After(s.tables, s.txs[i], c)
    ensures IsRun(h, on) && on[|on| - 1] == run[|run| - 1].(txs := run[|run| - 1].txs[i := tx])
  {
    var s, c := run[|run| - 1], Choice([raw], [], lock);
    var s' := s.(txs := s.txs[i := tx]);
    var hint := HintOf(s.tables, raw);
    var gates := if hint.HasIdentity() then [h(hint.Identity(raw))] else [];
    assert Sensible(h, s.tables, s.txs[i], c.(gates := gates));
    assert UngatedStep(h, s, s', i, c);
    OneStepOn(h, run, s');
    on := run + [s'];
  }

  /** A temporary key bound to a permanent one, and nothing else. */
  function Bound(temp: KeyId, perm: KeyId): Tables {
    Tables(map[], map[temp := KeyRow([], 0, 1, 0, 0), perm := KeyRow([], 0, 0, 0, 0)], map[temp := perm], map[], map[], map[], map[])
  }

  /** The deletion of the temporary key, with its row and about to take the permanent key's. */
  function ViaTemp(temp: KeyId, perm: KeyId): Tx {
    Fresh(DeleteKey(temp), 0).(phase := TakePermanentRow, rows := [temp], hint := Hint(1, true, perm), expiresAt := 1, held := {KeyLock(temp)})
  }

  /** The deletion of the permanent key, with its row and about to select the keys to delete. */
  function AtDoom(perm: KeyId): Tx { Fresh(DeleteKey(perm), 0).(phase := Doom, rows := [perm], held := {KeyLock(perm)}) }

  /** The same deletion in its statement, with its row and these of the locks of its statement. */
  function ViaPerm(temp: KeyId, perm: KeyId, taken: set<Lock>): Tx {
    Fresh(DeleteKey(perm), 0).(phase := Statement(ChildLocks(temp, perm) + {KeyLock(temp)} - taken), rows := [perm],
                               targets := {temp}, held := {KeyLock(perm)} + taken)
  }

  function ChildLocks(temp: KeyId, perm: KeyId): set<Lock> {
    {CursorLock(temp), CursorLock(perm), AuthLock(temp), AuthLock(perm)}
  }

  lemma BothStart(h: KeyId -> int, temp: KeyId, perm: KeyId) returns (run: seq<State>)
    requires temp != perm
    ensures IsRun(h, run)
    ensures run[|run| - 1] == State(Bound(temp, perm), map[0 := Fresh(DeleteKey(temp), 0), 1 := Fresh(DeleteKey(perm), 0)])
  {
    var t := Bound(temp, perm);
    var s0 := State(t, map[]);
    var s1 := State(t, map[0 := Fresh(DeleteKey(temp), 0)]);
    var s2 := State(t, map[0 := Fresh(DeleteKey(temp), 0), 1 := Fresh(DeleteKey(perm), 0)]);
    run := [s0];
    assert StartStep(s0, s1, 0, DeleteKey(temp));
    OneStepOn(h, run, s1);
    run := run + [s1];
    assert StartStep(s1, s2, 1, DeleteKey(perm));
    OneStepOn(h, run, s2);
    run := run + [s2];
  }

  lemma TempGoesFirst(h: KeyId -> int, temp: KeyId, perm: KeyId) returns (run: seq<State>)
    requires temp != perm
    ensures IsRun(h, run)
    ensures run[|run| - 1] == State(Bound(temp, perm), map[0 := ViaTemp(temp, perm), 1 := Fresh(DeleteKey(perm), 0)])
  {
    run := BothStart(h, temp, perm);
    var at := ViaTemp(temp, perm).(expiresAt := 0, held := {});
    run := Go(h, run, 0, 1, temp, KeyLock(temp), at.(phase := TakeGates(0)));
    run := Go(h, run, 0, 1, temp, KeyLock(temp), at.(phase := TakeRows(0)));
    run := Go(h, run, 0, 1, temp, KeyLock(temp), ViaTemp(temp, perm).(phase := TakeRows(1)));
    run := Go(h, run, 0, 1, temp, KeyLock(temp), ViaTemp(temp, perm).(phase := Recheck));
    run := Go(h, run, 0, 1, temp, KeyLock(temp), ViaTemp(temp, perm));
  }

  lemma DoomedLocks(temp: KeyId, perm: KeyId)
    requires temp != perm
    ensures BoundTo(Bound(temp, perm), perm) == {temp}
    ensures
      var dead := {temp} + {perm};
      CursorLocks(dead) + AuthLocks(dead) + KeyLocks({temp}) - {KeyLock(perm)} == ChildLocks(temp, perm) + {KeyLock(temp)} - {}
    ensures {KeyLock(perm)} + {} == {KeyLock(perm)}
  {
  }

  lemma PermFollows(h: KeyId -> int, temp: KeyId, perm: KeyId) returns (run: seq<State>)
    requires temp != perm
    ensures IsRun(h, run)
    ensures run[|run| - 1] == State(Bound(temp, perm), map[0 := ViaTemp(temp, perm), 1 := AtDoom(perm)])
  {
    run := TempGoesFirst(h, temp, perm);
    var at := AtDoom(perm);
    run := Go(h, run, 1, 0, perm, KeyLock(perm), at.(phase := TakeGates(0), held := {}));
    run := Go(h, run, 1, 0, perm, KeyLock(perm), at.(phase := TakeRows(0), held := {}));
    run := Go(h, run, 1, 0, perm, KeyLock(perm), at.(phase := TakeRows(1)));
    run := Go(h, run, 1, 0, perm, KeyLock(perm), at.(phase := Recheck));
    run := Go(h, run, 1, 0, perm, KeyLock(perm), at);
  }

  lemma PermIsDoomed(h: KeyId -> int, temp: KeyId, perm: KeyId) returns (run: seq<State>)
    requires temp != perm
    ensures IsRun(h, run)
    ensures run[|run| - 1] == State(Bound(temp, perm), map[0 := ViaTemp(temp, perm), 1 := ViaPerm(temp, perm, {})])
  {
    run := PermFollows(h, temp, perm);
    DoomedLocks(temp, perm);
    assert AfterDoom(Bound(temp, perm), AtDoom(perm)) == ViaPerm(temp, perm, {});
    run := Go(h, run, 1, 0, perm, KeyLock(perm), ViaPerm(temp, perm, {}));
  }

  lemma TakesOne(h: KeyId -> int, run: seq<State>, temp: KeyId, perm: KeyId, taken: set<Lock>, lock: Lock) returns (on: seq<State>)
    requires IsRun(h, run) && temp != perm && lock in ChildLocks(temp, perm) && lock !in taken
    requires run[|run| - 1] == State(Bound(temp, perm), map[0 := ViaTemp(temp, perm), 1 := ViaPerm(temp, perm, taken)])
    ensures IsRun(h, on)
    ensures on[|on| - 1] == State(Bound(temp, perm), map[0 := ViaTemp(temp, perm), 1 := ViaPerm(temp, perm, taken + {lock})])
  {
    var all := ChildLocks(temp, perm) + {KeyLock(temp)};
    assert all - taken - {lock} == all - (taken + {lock});
    assert {KeyLock(perm)} + taken + {lock} == {KeyLock(perm)} + (taken + {lock});
    on := Go(h, run, 1, 0, perm, lock, ViaPerm(temp, perm, taken + {lock}));
  }

  lemma PermTakesTheRest(h: KeyId -> int, temp: KeyId, perm: KeyId) returns (run: seq<State>)
    requires temp != perm
    ensures IsRun(h, run)
    ensures run[|run| - 1] == State(Bound(temp, perm), map[0 := ViaTemp(temp, perm), 1 := ViaPerm(temp, perm, ChildLocks(temp, perm))])
  {
    run := PermIsDoomed(h, temp, perm);
    var taken: set<Lock> := {};
    run := TakesOne(h, run, temp, perm, taken, CursorLock(temp));
    taken := taken + {CursorLock(temp)};
    run := TakesOne(h, run, temp, perm, taken, CursorLock(perm));
    taken := taken + {CursorLock(perm)};
    run := TakesOne(h, run, temp, perm, taken, AuthLock(temp));
    taken := taken + {AuthLock(temp)};
    run := TakesOne(h, run, temp, perm, taken, AuthLock(perm));
    assert taken + {AuthLock(perm)} == ChildLocks(temp, perm);
  }

  /** No transaction of this state can take another step. */
  ghost predicate Stuck(h: KeyId -> int, s: State) { forall s', i, c :: !UngatedStep(h, s, s', i, c) }

  /**
   The gates are what keeps deletions apart: without them, whatever the keys, two deletions run
   into a state in which each waits for a row of the other and neither can ever go on.
   */
  lemma WithoutGatesTheyDeadlock(h: KeyId -> int, temp: KeyId, perm: KeyId) returns (run: seq<State>)
    requires temp != perm
    ensures IsRun(h, run)
    ensures
      var s := run[|run| - 1];
      && s.txs.Keys == {0, 1} && !s.txs[0].phase.Done? && !s.txs[1].phase.Done?
      && WaitCycle(s, [0, 1]) && Stuck(h, s)
  {
    run := PermTakesTheRest(h, temp, perm);
    BothWait(h, run[|run| - 1], temp, perm);
  }

  lemma BothWait(h: KeyId -> int, s: State, temp: KeyId, perm: KeyId)
    requires temp != perm
    requires s == State(Bound(temp, perm), map[0 := ViaTemp(temp, perm), 1 := ViaPerm(temp, perm, ChildLocks(temp, perm))])
    ensures WaitCycle(s, [0, 1]) && Stuck(h, s)
  {
    assert s.txs[1].phase.locksLeft == {KeyLock(temp)};
    assert KeyLock(perm) in Wants(s.tables, s.txs[0]) && KeyLock(perm) in s.txs[1].held;
    assert KeyLock(temp) in Wants(s.tables, s.txs[1]) && KeyLock(temp) in s.txs[0].held;
    assert Waits(s, 0, 1) && Waits(s, 1, 0);
  }
}
