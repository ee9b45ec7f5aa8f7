/**
 users.getUsers: a batched lookup against the meaning of one input at a time.
 */
module GetUsers {
  import opened Wrappers

  datatype User = User(id: int, accessHash: int, profile: string)

  datatype InputUser = Empty | SelfUser | ById(userId: int, accessHash: int)

  datatype Authorization = Authorization(userId: int, passwordPending: bool)

  datatype Resolved = Resolved(user: User, isSelf: bool)

  datatype CurrentUser = CurrentUser(userId: int, authorized: bool)

  /** Rows are stored under their own id. */
  type Users = m: map<int, User> | forall id | id in m :: m[id].id == id witness map[]

  type KeyId = int

  function Current(auths: map<KeyId, Authorization>, key: KeyId): CurrentUser {
    if key !in auths || auths[key].passwordPending then CurrentUser(0, false) else CurrentUser(auths[key].userId, true)
  }

  // ---- One input at a time ----

  /** What a single input resolves to on its own: one user or nothing. */
  function ResolveOne(current: CurrentUser, users: Users, input: InputUser): seq<Resolved> {
    if !current.authorized then []
    else
      match input
      case Empty => []
      case SelfUser => if current.userId in users then [Resolved(users[current.userId], true)] else []
      case ById(id, hash) =>
        if id == 0 || id !in users || (hash != 0 && hash != users[id].accessHash) then []
        else [Resolved(users[id], id == current.userId)]
  }

  function ResolveAll(current: CurrentUser, users: Users, inputs: seq<InputUser>): seq<Resolved> {
    if inputs == [] then []
    else ResolveAll(current, users, inputs[..|inputs| - 1]) + ResolveOne(current, users, inputs[|inputs| - 1])
  }

  // ---- The stores ----

  class UserStore {
    var rows: Users

    constructor (rows: Users)
      ensures this.rows == rows
    {
      this.rows := rows;
    }

    method ByID(id: int) returns (r: Option<User>)
      ensures r == if id in rows then Some(rows[id]) else None
    {
      r := if id in rows then Some(rows[id]) else None;
    }

    /** The rows of these ids, in no order that matters. */
    method ByIDs(ids: seq<int>) returns (found: seq<User>)
      ensures forall u | u in found :: u.id in ids && u.id in rows && rows[u.id] == u
      ensures forall id | id in ids && id in rows :: rows[id] in found
    {
      found := [];
      for i := 0 to |ids|
        invariant forall u | u in found :: u.id in ids[..i] && u.id in rows && rows[u.id] == u
        invariant forall id | id in ids[..i] && id in rows :: rows[id] in found
      {
        if ids[i] in rows { found := found + [rows[ids[i]]]; }
      }
    }
  }

  class AuthorizationStore {
    var rows: map<KeyId, Authorization>

    constructor (rows: map<KeyId, Authorization>)
      ensures this.rows == rows
    {
      this.rows := rows;
    }

    method ByAuthKey(key: KeyId) returns (r: Option<Authorization>)
      ensures r == if key in rows then Some(rows[key]) else None
    {
      r := if key in rows then Some(rows[key]) else None;
    }
  }

  /** A key speaks for its user exactly while it is authorized and no password is pending. */
  method ResolveCurrentUser(auths: AuthorizationStore, key: KeyId) returns (r: CurrentUser)
    ensures r.authorized <==> key in auths.rows && !auths.rows[key].passwordPending
    ensures r.userId == if r.authorized then auths.rows[key].userId else 0
    ensures r == Current(auths.rows, key)
  {
    var a := auths.ByAuthKey(key);
    if a.None? || a.value.passwordPending { return CurrentUser(0, false); }
    return CurrentUser(a.value.userId, true);
  }

  // ---- The batch ----

  /** What the first pass keeps of an input. */
  predicate Kept(current: CurrentUser, input: InputUser) {
    current.authorized && (input.SelfUser? || (input.ById? && input.userId != 0))
  }

  function KeptOf(current: CurrentUser, inputs: seq<InputUser>): seq<InputUser> {
    if inputs == [] then []
    else
      KeptOf(current, inputs[..|inputs| - 1]) +
      (if Kept(current, inputs[|inputs| - 1]) then [inputs[|inputs| - 1]] else [])
  }

  /** What is dropped in the first pass resolves to nothing. */
  lemma {:induction false} KeptSuffices(current: CurrentUser, users: Users, inputs: seq<InputUser>)
    ensures ResolveAll(current, users, KeptOf(current, inputs)) == ResolveAll(current, users, inputs)
  {
    if inputs != [] {
      var before, last := inputs[..|inputs| - 1], inputs[|inputs| - 1];
      KeptSuffices(current, users, before);
      if Kept(current, last) {
        var kept := KeptOf(current, before);
        assert KeptOf(current, inputs) == kept + [last];
        assert (kept + [last])[..|kept|] == kept;
      } else {
        assert KeptOf(current, inputs) == KeptOf(current, before) + [] == KeptOf(current, before);
      }
    }
  }

  /** The first pass: the inputs to answer, whether one of them is the caller, and each id once. */
  method Gather(current: CurrentUser, inputs: seq<InputUser>)
    returns (kept: seq<InputUser>, needSelf: bool, uniqueIds: seq<int>)
    ensures kept == KeptOf(current, inputs)
    ensures needSelf <==> SelfUser in kept
    ensures forall id :: id in uniqueIds <==> exists k | 0 <= k < |kept| :: kept[k].ById? && kept[k].userId == id
    ensures forall i, j | 0 <= i < j < |uniqueIds| :: uniqueIds[i] != uniqueIds[j]
    ensures forall k | 0 <= k < |kept| :: Kept(current, kept[k])
  {
    kept, needSelf, uniqueIds := [], false, [];
    var seen: set<int> := {};
    for n := 0 to |inputs|
      invariant kept == KeptOf(current, inputs[..n])
      invariant needSelf <==> SelfUser in kept
      invariant forall id :: id in seen <==> id in uniqueIds
      invariant forall k | 0 <= k < |kept| && kept[k].ById? :: kept[k].userId in uniqueIds
      invariant forall id | id in uniqueIds :: exists k | 0 <= k < |kept| :: kept[k].ById? && kept[k].userId == id
      invariant forall i, j | 0 <= i < j < |uniqueIds| :: uniqueIds[i] != uniqueIds[j]
      invariant forall k | 0 <= k < |kept| :: Kept(current, kept[k])
    {
      var input := inputs[n];
      assert inputs[..n + 1][..n] == inputs[..n];
      ghost var before := kept;
      if input.SelfUser? {
        if !current.authorized { continue; }
        needSelf := true;
        kept := kept + [input];
      } else if input.ById? {
        if !current.authorized || input.userId == 0 { continue; }
        kept := kept + [input];
        assert kept[|before|] == input;
        if input.userId !in seen {
          seen := seen + {input.userId};
          uniqueIds := uniqueIds + [input.userId];
        }
      }
      assert forall k | 0 <= k < |before| :: kept[k] == before[k];
    }
    assert inputs[..|inputs|] == inputs;
  }

  method Index(found: seq<User>) returns (byId: map<int, User>)
    ensures forall id :: id in byId <==> id != 0 && exists k | 0 <= k < |found| :: found[k].id == id
    ensures forall id | id in byId :: byId[id] in found && byId[id].id == id
  {
    byId := map[];
    for n := 0 to |found|
      invariant forall id :: id in byId <==> id != 0 && exists k | 0 <= k < n :: found[k].id == id
      invariant forall id | id in byId :: byId[id] in found && byId[id].id == id
    {
      if found[n].id != 0 && found[n].id !in byId { byId := byId[found[n].id := found[n]]; }
    }
  }

  /** The second pass: each kept input in order, out of what was looked up. */
  method Answer(current: CurrentUser, ghost users: Users, kept: seq<InputUser>, self: Option<User>, byId: map<int, User>)
    returns (out: seq<Resolved>)
    requires forall k | 0 <= k < |kept| :: Kept(current, kept[k])
    requires SelfUser in kept ==> self == if current.userId in users then Some(users[current.userId]) else None
    requires forall k | 0 <= k < |kept| && kept[k].ById? :: kept[k].userId in byId <==> kept[k].userId in users
    requires forall id | id in byId :: id in users && byId[id] == users[id]
    ensures out == ResolveAll(current, users, kept)
  {
    out := [];
    for n := 0 to |kept|
      invariant out == ResolveAll(current, users, kept[..n])
    {
      var input := kept[n];
      assert kept[..n + 1][..n] == kept[..n];
      assert out + ResolveOne(current, users, input) == ResolveAll(current, users, kept[..n + 1]);
      if input.SelfUser? {
        if self.Some? { out := out + [Resolved(self.value, true)]; }
        continue;
      }
      if input.userId !in byId { continue; }
      var user := byId[input.userId];
      if input.accessHash != 0 && input.accessHash != user.accessHash { continue; }
      out := out + [Resolved(user, user.id == current.userId)];
    }
    assert kept[..|kept|] == kept;
  }

  method ResolveGetUsers(auths: AuthorizationStore, users: UserStore, key: KeyId, inputs: seq<InputUser>) returns (out: seq<Resolved>)
    ensures out == ResolveAll(Current(auths.rows, key), users.rows, inputs)
  {
    var current := ResolveCurrentUser(auths, key);
    var kept, needSelf, uniqueIds := Gather(current, inputs);
    var self: Option<User> := None;
    if needSelf { self := users.ByID(current.userId); }
    var byId: map<int, User> := map[];
    if uniqueIds != [] {
      var found := users.ByIDs(uniqueIds);
      byId := Index(found);
    }
    assert forall id | id in uniqueIds :: id in byId <==> id != 0 && id in users.rows;
    out := Answer(current, users.rows, kept, self, byId);
    KeptSuffices(current, users.rows, inputs);
  }

  // ---- What the meaning says ----

  lemma AppendLast(a: seq<InputUser>, b: seq<InputUser>)
    requires b != []
    ensures a + b == (a + b[..|b| - 1]) + [b[|b| - 1]]
  {
  }

  lemma OneMore(current: CurrentUser, users: Users, inputs: seq<InputUser>, input: InputUser)
    ensures ResolveAll(current, users, inputs + [input]) == ResolveAll(current, users, inputs) + ResolveOne(current, users, input)
  {
    assert (inputs + [input])[..|inputs|] == inputs;
  }

  /** Inputs are answered independently: a batch of two parts is the two answers in order. */
  lemma {:induction false} BatchesSplit(current: CurrentUser, users: Users, a: seq<InputUser>, b: seq<InputUser>)
    ensures ResolveAll(current, users, a + b) == ResolveAll(current, users, a) + ResolveAll(current, users, b)
  {
    if b == [] {
      assert a + b == a;
    } else {
      var b', input := b[..|b| - 1], b[|b| - 1];
      BatchesSplit(current, users, a, b');
      OneMore(current, users, a + b', input);
      OneMore(current, users, b', input);
      AppendLast(a, b);
      assert b == b' + [input];
      Associates(ResolveAll(current, users, a), ResolveAll(current, users, b'), ResolveOne(current, users, input));
    }
  }

  /** An unauthorized caller gets nothing, and no entry is ever shown as self but the caller's own. */
  lemma {:induction false} OnlyOwnIsSelf(current: CurrentUser, users: Users, inputs: seq<InputUser>)
    ensures !current.authorized ==> ResolveAll(current, users, inputs) == []
    ensures forall r | r in ResolveAll(current, users, inputs) ::
      r.user.id in users && users[r.user.id] == r.user && (r.isSelf <==> r.user.id == current.userId)
  {
    if inputs != [] { OnlyOwnIsSelf(current, users, inputs[..|inputs| - 1]); }
  }

  /** The input asks for this user, and may see it: the caller, or an id with hash 0 or the user's own. */
  predicate Names(current: CurrentUser, input: InputUser, u: User) {
    && current.authorized
    && match input
       case Empty => false
       case SelfUser => u.id == current.userId
       case ById(id, hash) => id == u.id && id != 0 && (hash == 0 || hash == u.accessHash)
  }

  predicate NamesNobody(current: CurrentUser, users: Users, input: InputUser) {
    forall id | id in users :: !Names(current, input, users[id])
  }

  /** at says which inputs the entries of out answer: one each, in order, and the rest name nobody. */
  ghost predicate AnswersAt(current: CurrentUser, users: Users, inputs: seq<InputUser>, out: seq<Resolved>, at: seq<nat>) {
    && |at| == |out|
    && (forall i, j | 0 <= i < j < |at| :: at[i] < at[j])
    && (forall i | 0 <= i < |at| ::
          && at[i] < |inputs| && Names(current, inputs[at[i]], out[i].user)
          && out[i].user.id in users && users[out[i].user.id] == out[i].user)
    && (forall k: nat | k < |inputs| && k !in at :: NamesNobody(current, users, inputs[k]))
  }

  lemma OneAnswers(current: CurrentUser, users: Users, input: InputUser)
    ensures
      var out := ResolveOne(current, users, input);
      || (out == [] && NamesNobody(current, users, input))
      || (|out| == 1 && Names(current, input, out[0].user) && out[0].user.id in users && users[out[0].user.id] == out[0].user)
  {
  }

  lemma AnswerSkips(current: CurrentUser, users: Users, inputs: seq<InputUser>, out: seq<Resolved>, at: seq<nat>, input: InputUser)
    requires AnswersAt(current, users, inputs, out, at) && NamesNobody(current, users, input)
    ensures AnswersAt(current, users, inputs + [input], out, at)
  {
    var all := inputs + [input];
    assert forall k: nat | k < |inputs| :: all[k] == inputs[k];
    forall k: nat | k < |all| && k !in at ensures NamesNobody(current, users, all[k]) {
      if k == |inputs| { assert all[k] == input; }
    }
  }

  lemma AnswerAdds(current: CurrentUser, users: Users, inputs: seq<InputUser>, out: seq<Resolved>, at: seq<nat>, input: InputUser, r: Resolved)
    requires AnswersAt(current, users, inputs, out, at)
    requires Names(current, input, r.user) && r.user.id in users && users[r.user.id] == r.user
    ensures AnswersAt(current, users, inputs + [input], out + [r], at + [|inputs|])
  {
    var all, out', at' := inputs + [input], out + [r], at + [|inputs|];
    assert forall k: nat | k < |inputs| :: all[k] == inputs[k];
    forall i | 0 <= i < |at'|
      ensures at'[i] < |all| && Names(current, all[at'[i]], out'[i].user) && out'[i].user.id in users && users[out'[i].user.id] == out'[i].user
    {
      if i < |at| { assert at'[i] == at[i] && out'[i] == out[i]; } else { assert all[at'[i]] == input && out'[i] == r; }
    }
    assert at'[|at|] == |inputs|;
    forall k: nat | k < |all| && k !in at' ensures NamesNobody(current, users, all[k]) {
      StaysIn(at, |inputs|, k);
    }
  }

  lemma StaysIn(at: seq<nat>, n: nat, k: nat)
    ensures k in at ==> k in at + [n]
  {
    forall i | 0 <= i < |at| ensures at[i] in at + [n] { assert (at + [n])[i] == at[i]; }
  }

  /**
   The answer has, in the order of the inputs, one entry for each input that names a stored user
   it may see, and that user in it; inputs without an entry name nobody.
   */
  lemma {:induction false} ExactlyTheNamed(current: CurrentUser, users: Users, inputs: seq<InputUser>) returns (at: seq<nat>)
    ensures AnswersAt(current, users, inputs, ResolveAll(current, users, inputs), at)
  {
    if inputs == [] {
      at := [];
    } else {
      var before, last := inputs[..|inputs| - 1], inputs[|inputs| - 1];
      at := ExactlyTheNamed(current, users, before);
      OneAnswers(current, users, last);
      assert before + [last] == inputs;
      var out, more := ResolveAll(current, users, before), ResolveOne(current, users, last);
      if more == [] {
        AnswerSkips(current, users, before, out, at, last);
        assert out + more == out;
      } else {
        AnswerAdds(current, users, before, out, at, last, more[0]);
        at := at + [|before|];
        assert out + [more[0]] == out + more;
      }
    }
  }
}
