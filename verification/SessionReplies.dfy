/**
 What a session writes on a connection, seen from the client: the session phase is one run of
 the session object, and each frame it writes opens to the reply with its number.
 */
module SessionReplies {
  import opened Wrappers
  import opened ByteStrings
  import opened MessageCipher
  import opened Sessions
  import opened SessionRuns
  import opened SessionLoops
  import Ige

  lemma EachJoins(f: (Outgoing, nat) -> Bytes, a: seq<Outgoing>, b: seq<Outgoing>, n: nat)
    ensures Each(f, a + b, n) == Each(f, a, n) + Each(f, b, n + |a|)
  {
    var all, joined := Each(f, a + b, n), Each(f, a, n) + Each(f, b, n + |a|);
    forall i | 0 <= i < |all| ensures all[i] == joined[i] {
      assert (a + b)[i] == if i < |a| then a[i] else b[i - |a|];
      if i >= |a| { assert n + i == n + |a| + (i - |a|); }
    }
  }

  lemma {:induction false} RepliesFromFront(c: Call, calls: seq<Call>, n: nat)
    requires n <= |calls|
    ensures AllReplies([c] + calls, n + 1) == c.replies + AllReplies(calls, n)
  {
    assert ([c] + calls)[n] == if n == 0 then c else calls[n - 1];
    if n == 0 {
      assert AllReplies([c] + calls, 0) == [];
    } else {
      RepliesFromFront(c, calls, n - 1);
      Associates(c.replies, AllReplies(calls, n - 1), calls[n - 1].replies);
    }
  }

  /** The call takes what this frame, the n-th of the session, opens to on the server's side. */
  ghost predicate Takes(service: Service, key: AuthKey, frame: Bytes, n: nat, c: Call) {
    var m := Decode(frame);
    m.Ok? && Opened(service.cipher, key, m.value, Server) == Ok(c.data) && c.handlers == service.handlers(n)
  }

  /** What a call may be: which frame it takes, and which state it leaves. */
  datatype Rules = Rules(takes: (Bytes, nat, Call) -> bool, leaves: (State, Call, State) -> bool)

  ghost function RulesOf(service: Service, key: AuthKey, salt: Int64): Rules {
    Rules((frame: Bytes, n: nat, c: Call) => Takes(service, key, frame, n, c),
          (s: State, c: Call, s': State) => Handle(s, salt, c.data, c.handlers) == Ok((s', c.replies)))
  }

  /** The k-th call takes the k-th frame, the first of which is the n-th, and leaves the next state. */
  ghost predicate CallAt(rules: Rules, n: nat, frames: seq<Bytes>, states: seq<State>, calls: seq<Call>, k: nat)
    requires |states| == |calls| + 1 && k < |calls| <= |frames|
  {
    rules.takes(frames[k], n + k, calls[k]) && rules.leaves(states[k], calls[k], states[k + 1])
  }

  /** Calls of the session object, one after another, from this progress on, of the first of these frames. */
  ghost predicate Follows(rules: Rules, p: Progress, frames: seq<Bytes>, states: seq<State>, calls: seq<Call>) {
    && |states| == |calls| + 1 && |calls| <= |frames| && states[0] == p.state
    && forall k | 0 <= k < |calls| :: CallAt(rules, p.frames, frames, states, calls, k)
  }

  lemma OneCallBefore(rules: Rules, p: Progress, q: Progress, frame: Bytes, frames: seq<Bytes>, c: Call, states: seq<State>, calls: seq<Call>)
    requires Follows(rules, q, frames, states, calls) && q.frames == p.frames + 1
    requires rules.takes(frame, p.frames, c) && rules.leaves(p.state, c, q.state)
    ensures Follows(rules, p, [frame] + frames, [p.state] + states, [c] + calls)
  {
    var fs, ss, cs := [frame] + frames, [p.state] + states, [c] + calls;
    forall k | 0 <= k < |cs| ensures CallAt(rules, p.frames, fs, ss, cs, k) {
      if k > 0 {
        assert fs[k] == frames[k - 1] && ss[k] == states[k - 1] && ss[k + 1] == states[k] && cs[k] == calls[k - 1];
        assert CallAt(rules, q.frames, frames, states, calls, k - 1);
      }
    }
  }

  lemma RepliesBefore(service: Service, key: AuthKey, c: Call, calls: seq<Call>, n: nat, m: nat)
    requires m == n + |c.replies|
    ensures
      Wires(service, key, AllReplies([c] + calls, |[c] + calls|), n) ==
      Wires(service, key, c.replies, n) + Wires(service, key, AllReplies(calls, |calls|), m)
  {
    RepliesFromFront(c, calls, |calls|);
    EachJoins(Sender(service, key), c.replies, AllReplies(calls, |calls|), n);
  }

  /** The call of the session object that one answered frame is. */
  lemma OneCall(service: Service, key: AuthKey, salt: Int64, p: Progress, frame: Bytes) returns (c: Call)
    requires Answer(service, key, salt, p, frame).Some?
    ensures
      var a := Answer(service, key, salt, p, frame).value;
      && Handle(p.state, salt, c.data, c.handlers) == Ok((a.0.state, c.replies))
      && a.0.replies == p.replies + |c.replies| && a.1 == Wires(service, key, c.replies, p.replies)
      && a.0.frames == p.frames + 1 && Takes(service, key, frame, p.frames, c)
  {
    var d := Opened(service.cipher, key, Decode(frame).value, Server).value;
    c := Call(d, service.handlers(p.frames), Handle(p.state, salt, d, service.handlers(p.frames)).value.1);
  }

  /** The same call, as the loop sees it. */
  lemma AnswerIsCall(service: Service, key: AuthKey, salt: Int64, answer: Answerer, rules: Rules, p: Progress, frame: Bytes) returns (c: Call)
    requires answer == Answering(service, key, salt) && rules == RulesOf(service, key, salt) && answer(p, frame).Some?
    ensures
      var a := answer(p, frame).value;
      && rules.takes(frame, p.frames, c) && rules.leaves(p.state, c, a.0.state)
      && a.0.replies == p.replies + |c.replies| && a.1 == Wires(service, key, c.replies, p.replies)
      && a.0.frames == p.frames + 1
  {
    assert answer(p, frame) == Answer(service, key, salt, p, frame);
    c := OneCall(service, key, salt, p, frame);
  }

  /** What is served from this progress on is these calls, of the frames handled, and their replies. */
  ghost predicate IsCalls(service: Service, key: AuthKey, rules: Rules, p: Progress, served: Served, states: seq<State>, calls: seq<Call>) {
    && Follows(rules, p, served.handled, states, calls)
    && |served.handled| == |calls| + (if served.failed then 1 else 0)
    && served.written == Wires(service, key, AllReplies(calls, |calls|), p.replies)
  }

  lemma CallInFront(service: Service, key: AuthKey, rules: Rules, p: Progress, q: Progress, frame: Bytes, served: Served, c: Call,
                    states: seq<State>, calls: seq<Call>)
    requires IsCalls(service, key, rules, q, served, states, calls)
    requires rules.takes(frame, p.frames, c) && rules.leaves(p.state, c, q.state)
    requires q.frames == p.frames + 1 && q.replies == p.replies + |c.replies|
    ensures
      var more := Preceded([frame], Wires(service, key, c.replies, p.replies), served);
      IsCalls(service, key, rules, p, more, [p.state] + states, [c] + calls)
  {
    OneCallBefore(rules, p, q, frame, served.handled, c, states, calls);
    RepliesBefore(service, key, c, calls, p.replies, q.replies);
  }

  lemma {:induction false} FramesAreCalls(service: Service, key: AuthKey, salt: Int64, answer: Answerer, rules: Rules, p: Progress, frames: seq<Bytes>)
    returns (states: seq<State>, calls: seq<Call>)
    requires answer == Answering(service, key, salt) && rules == RulesOf(service, key, salt)
    ensures IsCalls(service, key, rules, p, ServeFrames(answer, p, frames), states, calls)
    decreases |frames|, 0
  {
    if frames == [] {
      states, calls := [p.state], [];
    } else if IsPlaintextAck(frames[0]) {
      states, calls := FramesAreCalls(service, key, salt, answer, rules, p, frames[1..]);
    } else {
      states, calls := NextIsCall(service, key, salt, answer, rules, p, frames[0], frames[1..]);
    }
  }

  lemma {:induction false} NextIsCall(service: Service, key: AuthKey, salt: Int64, answer: Answerer, rules: Rules, p: Progress, frame: Bytes, rest: seq<Bytes>)
    returns (states: seq<State>, calls: seq<Call>)
    requires answer == Answering(service, key, salt) && rules == RulesOf(service, key, salt)
    ensures IsCalls(service, key, rules, p, ServeNext(answer, p, frame, rest), states, calls)
    decreases |rest|, 1
  {
    if answer(p, frame).None? {
      states, calls := [p.state], [];
    } else {
      var c := AnswerIsCall(service, key, salt, answer, rules, p, frame);
      var q := answer(p, frame).value.0;
      states, calls := FramesAreCalls(service, key, salt, answer, rules, q, rest);
      CallInFront(service, key, rules, p, q, frame, ServeFrames(answer, q, rest), c, states, calls);
      states, calls := [p.state] + states, [c] + calls;
    }
  }

  /**
   The session phase of a connection is one run of the session object, a call for every frame it
   handled, of what that frame opens to, and what it writes is exactly the replies of that run, in order.
   */
  lemma SessionIsOneRun(service: Service, key: AuthKey, salt: Int64, first: Bytes, rest: seq<Bytes>)
    returns (states: seq<State>, calls: seq<Call>)
    ensures IsRun(states, salt, calls)
    ensures
      var served := ServeFrom(service, key, salt, first, rest);
      && |served.handled| == |calls| + (if served.failed then 1 else 0)
      && served.written == Wires(service, key, AllReplies(calls, |calls|), 0)
      && forall k | 0 <= k < |calls| :: Takes(service, key, served.handled[k], k, calls[k])
  {
    var rules, served := RulesOf(service, key, salt), ServeFrom(service, key, salt, first, rest);
    states, calls := NextIsCall(service, key, salt, Answering(service, key, salt), rules, START, first, rest);
    forall k | 0 <= k < |calls| ensures ReturnsAt(states, salt, calls, k) && Takes(service, key, served.handled[k], k, calls[k]) {
      assert CallAt(rules, 0, served.handled, states, calls, k);
    }
  }

  /** A reply that goes out comes in, with every field, on the client's side, exactly when its body is whole words and not too long. */
  lemma ClientOpens(env: Env, key: AuthKey, o: Outgoing, d: Draw)
    requires Ige.IsPermutation(env.cipher)
    ensures
      var m := Decode(Wire(env, key, o, d));
      && m.Ok?
      && (Opened(env, key, m.value, Client) == Ok(MessageData(o.salt, o.sessionId, d.messageId, o.seqNo, o.body)) <==>
            |o.body| % 4 == 0 && |o.body| + |Drawn(d, |o.body|)| < 0x8000_0000)
  {
    PaddingAligns(32 + |o.body|, d.randByte);
    var padded := Header(o.salt, o.sessionId, d.messageId, o.seqNo, |o.body|) + o.body + Drawn(d, |o.body|);
    MessageTrip(env, key, o.salt, o.sessionId, d.messageId, o.seqNo, o.body, Server, d.randByte, Drawn(d, |o.body|));
    EnvelopeTrip(Sealed(env, key, padded, Server));
  }

  /**
   The i-th frame a session writes opens, on the client's side, to its i-th reply, numbered 2i + 1 in
   32 bits, exactly when that reply's body is whole words and not too long.
   */
  lemma ClientReadsReplies(service: Service, key: AuthKey, salt: Int64, first: Bytes, rest: seq<Bytes>, i: nat)
    returns (states: seq<State>, calls: seq<Call>)
    requires Ige.IsPermutation(service.cipher.cipher) && i < |ServeFrom(service, key, salt, first, rest).written|
    ensures IsRun(states, salt, calls) && i < |AllReplies(calls, |calls|)|
    ensures
      var o, d := AllReplies(calls, |calls|)[i], service.draws(i);
      var m := Decode(ServeFrom(service, key, salt, first, rest).written[i]);
      && m.Ok? && (i < 0x4000_0000 ==> SeqNoAt(i) == 2 * i + 1)
      && (Opened(service.cipher, key, m.value, Client) ==
          Ok(MessageData(o.salt, o.sessionId, d.messageId, SeqNoAt(i), o.body)) <==>
            |o.body| % 4 == 0 && |o.body| + |Drawn(d, |o.body|)| < 0x8000_0000)
  {
    states, calls := SessionIsOneRun(service, key, salt, first, rest);
    SeqNosAreOdd(states, salt, calls);
    ClientOpens(service.cipher, key, AllReplies(calls, |calls|)[i], service.draws(i));
  }
}
