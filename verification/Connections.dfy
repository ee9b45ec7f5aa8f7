/**
 A whole connection: handshakes as long as the client makes them, then a session that starts
 with the frame that ended them.
 */
module Connections {
  import opened Wrappers
  import opened ByteStrings
  import opened TlBuffers
  import opened Handshakes
  import opened Links
  import opened SessionLoops
  import MessageCipher

  datatype Resolved = Resolved(key: AuthKey, salt: Int64)

  /** The k-th exchange draws from envs(k); resolver looks up keys of earlier connections. */
  datatype Server = Server(
    envs: nat -> Env,
    service: Service,
    hasRegistry: bool,
    resolver: Option<Bytes -> Option<Resolved>>)

  const KEY_NOT_FOUND: Int32 := -404

  /** The key a session runs under, the frames it was given, and whether the last of them ended it. */
  datatype Serving = Serving(key: AuthKey, salt: Int64, frames: seq<Bytes>, failed: bool)

  /** All a connection does: keys agreed, payloads written, frames answered by handshakes, and the session, if it comes to one. */
  datatype Trace = Trace(agreed: seq<Outcome>, written: seq<Bytes>, used: seq<Bytes>, session: Option<Serving>)

  /** How a connection goes on once a frame under some key turns up. */
  function OnForeign(s: Server, have: Option<Outcome>, id: Bytes, frame: Bytes, rest: seq<Bytes>): Trace {
    if have.Some? && id == MessageCipher.AuthKeyId(s.service.cipher, have.value.key) then Begin(s, have.value.key, have.value.salt, frame, rest)
    else if !s.hasRegistry || s.resolver.None? then Trace([], [], [], None)
    else
      var resolved := s.resolver.value(id);
      if resolved.None? then Trace([], [EncodeInt32(KEY_NOT_FOUND)], [], None)
      else Begin(s, resolved.value.key, resolved.value.salt, frame, rest)
  }

  /** The session starts with the frame that turned up, and writes after what is written already. */
  function Begin(s: Server, key: AuthKey, salt: Int64, frame: Bytes, rest: seq<Bytes>): Trace {
    if !s.hasRegistry then Trace([], [], [], None) else Session(key, salt, ServeFrom(s.service, key, salt, frame, rest))
  }

  function Session(key: AuthKey, salt: Int64, served: Served): Trace {
    Trace([], served.written, [], Some(Serving(key, salt, served.handled, served.failed)))
  }

  function Before(agreed: seq<Outcome>, written: seq<Bytes>, used: seq<Bytes>, t: Trace): Trace {
    Trace(agreed + t.agreed, written + t.written, used + t.used, t.session)
  }

  /** From the k-th exchange on; have is the key agreed last. */
  function Connect(s: Server, k: nat, have: Option<Outcome>, frames: seq<Bytes>): Trace
    decreases |frames|
  {
    RunIgnoresAcks(s.envs(k), frames);
    match Run(s.envs(k), frames)
    case Failed(written, used) => Trace([], written, used, None)
    case Interrupted(id, frame, written, used, rest) => Before([], written, used, OnForeign(s, have, id, frame, rest))
    case Done(outcome, written, used, rest) =>
      Before([outcome], written, used, if s.hasRegistry then Connect(s, k + 1, Some(outcome), rest) else Trace([], [], [], None))
  }

  // ---- Acknowledgements ----

  lemma ForeignIgnoresAcks(s: Server, have: Option<Outcome>, id: Bytes, frame: Bytes, rest: seq<Bytes>)
    ensures OnForeign(s, have, id, frame, WithoutAcks(rest)) == OnForeign(s, have, id, frame, rest)
  {
    forall key, salt ensures Begin(s, key, salt, frame, WithoutAcks(rest)) == Begin(s, key, salt, frame, rest) {
      ServiceIgnoresAcks(s.service, key, salt, frame, rest);
    }
  }

  /** Acknowledgements anywhere on the connection change nothing that it does. */
  lemma {:induction false} AcksChangeNothing(s: Server, k: nat, have: Option<Outcome>, frames: seq<Bytes>)
    ensures Connect(s, k, have, WithoutAcks(frames)) == Connect(s, k, have, frames)
    decreases |frames|
  {
    RunIgnoresAcks(s.envs(k), frames);
    match Run(s.envs(k), frames)
    case Failed(_, _) =>
    case Interrupted(id, frame, _, _, rest) => ForeignIgnoresAcks(s, have, id, frame, rest);
    case Done(outcome, _, _, rest) => AcksChangeNothing(s, k + 1, Some(outcome), rest);
  }

  /** So two inputs that differ only in acknowledgements, inserted or removed anywhere, have one trace. */
  lemma InsertedAcksChangeNothing(s: Server, a: seq<Bytes>, b: seq<Bytes>)
    requires WithoutAcks(a) == WithoutAcks(b)
    ensures Connect(s, 0, None, a) == Connect(s, 0, None, b)
  {
    AcksChangeNothing(s, 0, None, a);
    AcksChangeNothing(s, 0, None, b);
  }

  // ---- Every other frame is consumed once, in order ----

  /**
   WithoutAcks(frames) is what was used, then the session's first frame, then what the session read
   from. It was given all of that, or the front of it that ends with the frame it failed on.
   */
  ghost predicate InOrder(frames: seq<Bytes>, used: seq<Bytes>, session: Serving) {
    && session.frames != []
    && exists rest :: FollowedBy(frames, used, session, rest)
  }

  predicate FollowedBy(frames: seq<Bytes>, used: seq<Bytes>, session: Serving, rest: seq<Bytes>)
    requires session.frames != []
  {
    && WithoutAcks(frames) == used + [session.frames[0]] + WithoutAcks(rest)
    && session.frames <= [session.frames[0]] + SessionFrames(rest)
    && (!session.failed ==> session.frames == [session.frames[0]] + SessionFrames(rest))
  }

  /** What one exchange makes of a connection. */
  lemma ConnectStep(s: Server, k: nat, have: Option<Outcome>, frames: seq<Bytes>, e: Exchange)
    requires e == Run(s.envs(k), frames)
    ensures e.Failed? ==> Connect(s, k, have, frames) == Trace([], e.written, e.used, None)
    ensures e.Interrupted? ==>
      Connect(s, k, have, frames) == Before([], e.written, e.used, OnForeign(s, have, e.keyId, e.frame, e.rest))
    ensures e.Done? ==> |e.rest| < |frames|
    ensures e.Done? ==>
      Connect(s, k, have, frames) ==
      Before([e.outcome], e.written, e.used, if s.hasRegistry then Connect(s, k + 1, Some(e.outcome), e.rest) else Trace([], [], [], None))
  {
    RunIgnoresAcks(s.envs(k), frames);
  }

  /** What was used is the front of the frames, and what a session was given comes next. */
  ghost predicate Orderly(t: Trace, frames: seq<Bytes>) {
    t.used <= WithoutAcks(frames) && (t.session.Some? ==> InOrder(frames, t.used, t.session.value))
  }

  lemma BeginsInOrder(s: Server, have: Option<Outcome>, id: Bytes, frame: Bytes, w: seq<Bytes>, used: seq<Bytes>, rest: seq<Bytes>, frames: seq<Bytes>)
    requires WithoutAcks(frames) == used + [frame] + WithoutAcks(rest)
    ensures Orderly(Before([], w, used, OnForeign(s, have, id, frame, rest)), frames)
  {
    var t := OnForeign(s, have, id, frame, rest);
    assert used + t.used == used;
    if t.session.Some? {
      HandledInOrder(s.service, t.session.value.key, t.session.value.salt, frame, rest);
      assert FollowedBy(frames, used, t.session.value, rest);
    }
  }

  lemma LaterInOrder(used: seq<Bytes>, frames: seq<Bytes>, rest: seq<Bytes>, later: seq<Bytes>, session: Serving)
    requires WithoutAcks(frames) == used + WithoutAcks(rest) && InOrder(rest, later, session)
    ensures InOrder(frames, used + later, session)
  {
    var after :| FollowedBy(rest, later, session, after);
    assert used + (later + [session.frames[0]] + WithoutAcks(after)) == (used + later) + [session.frames[0]] + WithoutAcks(after);
    assert FollowedBy(frames, used + later, session, after);
  }

  lemma GoesOnInOrder(outcome: Outcome, w: seq<Bytes>, used: seq<Bytes>, later: Trace, rest: seq<Bytes>, frames: seq<Bytes>)
    requires WithoutAcks(frames) == used + WithoutAcks(rest) && Orderly(later, rest)
    ensures Orderly(Before([outcome], w, used, later), frames)
  {
    if later.session.Some? { LaterInOrder(used, frames, rest, later.used, later.session.value); }
  }

  /**
   However a connection ends, its handshakes took the front of the frames that are no acknowledgements,
   once and in order. When it comes to a session, the next of them was the session's first frame, and
   the session was given those after it.
   */
  lemma {:induction false} FramesGoInOrder(s: Server, k: nat, have: Option<Outcome>, frames: seq<Bytes>)
    ensures
      var t := Connect(s, k, have, frames);
      && t.used <= WithoutAcks(frames)
      && (t.session.Some? ==> InOrder(frames, t.used, t.session.value))
    decreases |frames|
  {
    var e := Run(s.envs(k), frames);
    RunIgnoresAcks(s.envs(k), frames);
    ConnectStep(s, k, have, frames, e);
    match e
    case Failed(_, _) =>
    case Interrupted(id, frame, w, used, rest) => BeginsInOrder(s, have, id, frame, w, used, rest, frames);
    case Done(outcome, w, used, rest) =>
      if s.hasRegistry {
        FramesGoInOrder(s, k + 1, Some(outcome), rest);
        GoesOnInOrder(outcome, w, used, Connect(s, k + 1, Some(outcome), rest), rest, frames);
      } else {
        GoesOnInOrder(outcome, w, used, Trace([], [], [], None), rest, frames);
      }
  }

  // ---- The loops ----

  /** Reads on past acknowledgements. */
  method ReadNextRealHandshakeMessage(link: Link) returns (r: Next)
    modifies link`input
    ensures r == NextReal(old(link.input))
    ensures !r.Stuck? ==> link.input == r.rest
  {
    ghost var all := NextReal(link.input);
    while true
      invariant NextReal(link.input) == all
      decreases |link.input|
    {
      var frame := link.Read();
      if frame.None? { return Stuck; }
      match Classify(frame.value) {
        case Ack => continue;
        case Broken => return Stuck;
        case Encrypted(id) => return Foreign(id, frame.value, link.input);
        case Real(data) => return Received(data, frame.value, link.input);
      }
    }
  }

  method AwaitLastMessage(link: Link, env: Env, nonce: Nonce, inner: Inner, expiresAt: int) returns (e: Exchange)
    modifies link
    ensures e == AwaitClient(env, nonce, inner, expiresAt, old(link.input))
    ensures link.output == old(link.output) + e.written && (!e.Failed? ==> link.input == e.rest)
  {
    var next := ReadNextRealHandshakeMessage(link);
    match next {
      case Stuck => return Failed([], []);
      case Foreign(id, frame, rest) => return Interrupted(id, frame, [], [], rest);
      case Received(data, frame, rest) =>
        var encrypted := DecodeSetClient(data);
        if encrypted.None? { return Failed([], [frame]); }
        var key := env.agree(inner.newNonce, encrypted.value);
        if key.None? { return Failed([], [frame]); }
        var genOk := env.genOk(nonce, inner.newNonce, key.value);
        link.Write(genOk);
        return Done(Agreed(key.value, env.salt(inner.newNonce), expiresAt), [genOk], [frame], rest);
    }
  }

  method SendParams(link: Link, env: Env, nonce: Nonce, encrypted: Bytes) returns (e: Exchange)
    modifies link
    ensures e == AfterParams(env, nonce, encrypted, old(link.input))
    ensures link.output == old(link.output) + e.written && (!e.Failed? ==> link.input == e.rest)
  {
    var plain := env.unpad(encrypted);
    if plain.None? { return Failed([], []); }
    var inner := DecodeInner(plain.value);
    if inner.None? { return Failed([], []); }
    var expiresAt := ExpiresAt(inner.value, env.now);
    if expiresAt.None? { return Failed([], []); }
    var params := env.paramsOk(nonce, inner.value.newNonce);
    link.Write(params);
    var last := AwaitLastMessage(link, env, nonce, inner.value, expiresAt.value);
    e := Earlier([params], [], last);
  }

  lemma EarlierTwice(w: seq<Bytes>, u: seq<Bytes>, w': seq<Bytes>, u': seq<Bytes>, e: Exchange)
    ensures Earlier(w, u, Earlier(w', u', e)) == Earlier(w + w', u + u', e)
  {
    assert w + (w' + e.written) == (w + w') + e.written;
    assert u + (u' + e.used) == (u + u') + e.used;
  }

  lemma EarlierNothing(e: Exchange)
    ensures Earlier([], [], e) == e
  {
    assert [] + e.written == e.written;
    assert [] + e.used == e.used;
  }

  lemma EarlierFields(w: seq<Bytes>, u: seq<Bytes>, e: Exchange)
    ensures Earlier(w, u, e).written == w + e.written && Earlier(w, u, e).Failed? == e.Failed?
    ensures !e.Failed? ==> Earlier(w, u, e).rest == e.rest
  {
  }

  datatype Step = Repeated(resPq: Bytes, frame: Bytes, again: Nonce) | Ended(exchange: Exchange)

  lemma AwaitRepeats(env: Env, nonce: Nonce, frames: seq<Bytes>, data: Bytes, frame: Bytes, rest: seq<Bytes>, again: Nonce)
    requires NextReal(frames) == Received(data, frame, rest) && DecodeReqPq(data) == Some(again)
    ensures AwaitParams(env, nonce, frames) == Earlier([env.resPq(nonce)], [frame], AwaitParams(env, again, rest))
  {
  }

  /** What a message that is no req_pq leads to. */
  function OnReqDh(env: Env, nonce: Nonce, data: Bytes, frame: Bytes, rest: seq<Bytes>): Exchange {
    var encrypted := DecodeReqDh(data);
    if encrypted.None? then Failed([], [frame]) else Earlier([], [frame], AfterParams(env, nonce, encrypted.value, rest))
  }

  /** The ends of a round, after its resPQ. */
  function EndOfRound(env: Env, nonce: Nonce, next: Next): Exchange {
    match next
    case Stuck => Failed([], [])
    case Foreign(id, frame, rest) => Interrupted(id, frame, [], [], rest)
    case Received(data, frame, rest) => if IsReqPq(data) then Failed([], [frame]) else OnReqDh(env, nonce, data, frame, rest)
  }

  lemma AwaitEnds(env: Env, nonce: Nonce, frames: seq<Bytes>, next: Next)
    requires next == NextReal(frames) && (next.Received? && IsReqPq(next.data) ==> DecodeReqPq(next.data).None?)
    ensures AwaitParams(env, nonce, frames) == Earlier([env.resPq(nonce)], [], EndOfRound(env, nonce, next))
  {
    if next.Received? && !IsReqPq(next.data) && DecodeReqDh(next.data).Some? {
      var after := AfterParams(env, nonce, DecodeReqDh(next.data).value, next.rest);
      EarlierTwice([env.resPq(nonce)], [], [], [next.frame], after);
      assert [env.resPq(nonce)] + [] == [env.resPq(nonce)] && [] + [next.frame] == [next.frame];
    }
  }

  method AnswerReqDh(link: Link, env: Env, nonce: Nonce, data: Bytes, frame: Bytes) returns (e: Exchange)
    modifies link
    ensures e == OnReqDh(env, nonce, data, frame, old(link.input))
    ensures link.output == old(link.output) + e.written && (!e.Failed? ==> link.input == e.rest)
  {
    var encrypted := DecodeReqDh(data);
    if encrypted.None? { return Failed([], [frame]); }
    var later := SendParams(link, env, nonce, encrypted.value);
    EarlierFields([], [frame], later);
    assert [] + later.written == later.written;
    return Earlier([], [frame], later);
  }

  /** How the resPQ loop goes on from a nonce and the frames that are left. */
  type Awaiting = (Nonce, seq<Bytes>) -> Exchange

  ghost predicate IsAwait(await: Awaiting, env: Env) {
    forall nonce: Nonce, frames: seq<Bytes> {:trigger AwaitParams(env, nonce, frames)} ::
      await(nonce, frames) == AwaitParams(env, nonce, frames)
  }

  lemma Await(env: Env) returns (await: Awaiting)
    ensures IsAwait(await, env)
  {
    await := (nonce: Nonce, frames: seq<Bytes>) => AwaitParams(env, nonce, frames);
  }

  lemma RoundRepeats(await: Awaiting, env: Env, nonce: Nonce, frames: seq<Bytes>, next: Next, resPq: Bytes, again: Nonce)
    requires IsAwait(await, env) && next == NextReal(frames) && next.Received? && DecodeReqPq(next.data) == Some(again) && resPq == env.resPq(nonce)
    ensures await(nonce, frames) == Earlier([resPq], [next.frame], await(again, next.rest)) && |next.rest| < |frames|
  {
    AwaitRepeats(env, nonce, frames, next.data, next.frame, next.rest, again);
  }

  method EndRound(link: Link, env: Env, nonce: Nonce, next: Next) returns (e: Exchange)
    requires !next.Stuck? ==> link.input == next.rest
    modifies link
    ensures e == EndOfRound(env, nonce, next)
    ensures link.output == old(link.output) + e.written && (!e.Failed? ==> link.input == e.rest)
  {
    match next {
      case Stuck => return Failed([], []);
      case Foreign(id, frame, rest) => return Interrupted(id, frame, [], [], rest);
      case Received(data, frame, rest) =>
        if IsReqPq(data) { return Failed([], [frame]); }
        e := AnswerReqDh(link, env, nonce, data, frame);
    }
  }

  /** The end of a round, as an end of the loop. */
  method EndLoop(link: Link, env: Env, nonce: Nonce, next: Next, ghost frames: seq<Bytes>, ghost await: Awaiting) returns (e: Exchange)
    requires IsAwait(await, env) && next == NextReal(frames) && (next.Received? ==> DecodeReqPq(next.data).None?)
    requires !next.Stuck? ==> link.input == next.rest
    modifies link
    ensures await(nonce, frames) == Earlier([env.resPq(nonce)], [], e)
    ensures link.output == old(link.output) + e.written && (!e.Failed? ==> link.input == e.rest)
  {
    AwaitEnds(env, nonce, frames, next);
    e := EndRound(link, env, nonce, next);
  }

  method CloseRound(link: Link, env: Env, nonce: Nonce, next: Next, ghost frames: seq<Bytes>, ghost before: seq<Bytes>, ghost await: Awaiting)
    returns (e: Exchange)
    requires IsAwait(await, env) && link.output == before + [env.resPq(nonce)]
    requires next == NextReal(frames) && (next.Received? ==> DecodeReqPq(next.data).None?)
    requires !next.Stuck? ==> link.input == next.rest
    modifies link
    ensures e == await(nonce, frames)
    ensures link.output == before + e.written && (!e.Failed? ==> link.input == e.rest)
  {
    var resPq := env.resPq(nonce);
    var end := EndLoop(link, env, nonce, next, frames, await);
    EarlierFields([resPq], [], end);
    assert (before + [resPq]) + end.written == before + ([resPq] + end.written);
    e := Earlier([resPq], [], end);
  }

  /** One round of the resPQ loop. */
  method AnswerOnce(link: Link, env: Env, nonce: Nonce, ghost await: Awaiting) returns (step: Step)
    requires IsAwait(await, env)
    modifies link
    ensures step.Repeated? ==>
      && await(nonce, old(link.input)) == Earlier([step.resPq], [step.frame], await(step.again, link.input))
      && link.output == old(link.output) + [step.resPq] && |link.input| < |old(link.input)|
    ensures step.Ended? ==>
      && step.exchange == await(nonce, old(link.input))
      && link.output == old(link.output) + step.exchange.written && (!step.exchange.Failed? ==> link.input == step.exchange.rest)
  {
    ghost var frames, before := link.input, link.output;
    var resPq := env.resPq(nonce);
    link.Write(resPq);
    var next := ReadNextRealHandshakeMessage(link);
    var again := if next.Received? then DecodeReqPq(next.data) else None;
    if again.Some? {
      RoundRepeats(await, env, nonce, frames, next, resPq, again.value);
      return Repeated(resPq, next.frame, again.value);
    }
    var e := CloseRound(link, env, nonce, next, frames, before, await);
    return Ended(e);
  }

  /** The resPQ loop: the nonce is replaced by that of each repeated req_pq. */
  method AwaitParameters(link: Link, env: Env, first: Nonce) returns (e: Exchange)
    modifies link
    ensures e == AwaitParams(env, first, old(link.input))
    ensures link.output == old(link.output) + e.written && (!e.Failed? ==> link.input == e.rest)
  {
    var nonce := first;
    var written: seq<Bytes>, used: seq<Bytes> := [], [];
    ghost var await := Await(env);
    ghost var all, before := await(first, link.input), link.output;
    EarlierNothing(all);
    while true
      invariant all == Earlier(written, used, await(nonce, link.input))
      invariant link.output == before + written
      decreases |link.input|
    {
      var step := AnswerOnce(link, env, nonce, await);
      if step.Ended? {
        EarlierFields(written, used, step.exchange);
        Associates(before, written, step.exchange.written);
        return Earlier(written, used, step.exchange);
      }
      EarlierTwice(written, used, [step.resPq], [step.frame], await(step.again, link.input));
      Associates(before, written, [step.resPq]);
      nonce, written, used := step.again, written + [step.resPq], used + [step.frame];
    }
  }

  lemma RunGoesOn(env: Env, frames: seq<Bytes>, data: Bytes, frame: Bytes, rest: seq<Bytes>, nonce: Nonce)
    requires NextReal(frames) == Received(data, frame, rest) && DecodeReqPq(data) == Some(nonce)
    ensures Run(env, frames) == Earlier([], [frame], AwaitParams(env, nonce, rest))
  {
  }

  lemma RunStops(env: Env, frames: seq<Bytes>, next: Next)
    requires next == NextReal(frames)
    ensures next.Stuck? ==> Run(env, frames) == Failed([], [])
    ensures next.Received? && DecodeReqPq(next.data).None? ==> Run(env, frames) == Failed([], [next.frame])
    ensures next.Foreign? ==> Run(env, frames) == Interrupted(next.keyId, next.frame, [], [], next.rest)
  {
  }

  method FirstMessage(link: Link, env: Env, nonce: Nonce, frame: Bytes) returns (e: Exchange)
    modifies link
    ensures e == Earlier([], [frame], AwaitParams(env, nonce, old(link.input)))
    ensures link.output == old(link.output) + e.written && (!e.Failed? ==> link.input == e.rest)
  {
    var later := AwaitParameters(link, env, nonce);
    EarlierFields([], [frame], later);
    assert [] + later.written == later.written;
    e := Earlier([], [frame], later);
  }

  method RunExchange(link: Link, env: Env) returns (e: Exchange)
    modifies link
    ensures e == Run(env, old(link.input))
    ensures link.output == old(link.output) + e.written && (!e.Failed? ==> link.input == e.rest)
  {
    ghost var frames := link.input;
    var next := ReadNextRealHandshakeMessage(link);
    RunStops(env, frames, next);
    match next {
      case Stuck => return Failed([], []);
      case Foreign(id, frame, rest) => return Interrupted(id, frame, [], [], rest);
      case Received(data, frame, rest) =>
        var nonce := DecodeReqPq(data);
        if nonce.None? { return Failed([], [frame]); }
        RunGoesOn(env, frames, data, frame, rest, nonce.value);
        e := FirstMessage(link, env, nonce.value, frame);
    }
  }

  /** A frame under a key has turned up: a session under it, a refusal, or the end. */
  method ServeForeign(link: Link, s: Server, have: Option<Outcome>, id: Bytes, frame: Bytes) returns (t: Trace)
    modifies link
    ensures t == OnForeign(s, have, id, frame, old(link.input))
    ensures link.output == old(link.output) + t.written
  {
    if have.Some? && id == MessageCipher.AuthKeyId(s.service.cipher, have.value.key) {
      t := ServeUnder(link, s, have.value.key, have.value.salt, frame);
      return;
    }
    if !s.hasRegistry || s.resolver.None? { return Trace([], [], [], None); }
    var resolved := s.resolver.value(id);
    if resolved.None? {
      var refusal := EncodeInt32(KEY_NOT_FOUND);
      link.Write(refusal);
      return Trace([], [refusal], [], None);
    }
    t := ServeUnder(link, s, resolved.value.key, resolved.value.salt, frame);
  }

  method ServeUnder(link: Link, s: Server, key: AuthKey, salt: Int64, frame: Bytes) returns (t: Trace)
    modifies link
    ensures t == Begin(s, key, salt, frame, old(link.input))
    ensures link.output == old(link.output) + t.written
  {
    if !s.hasRegistry { return Trace([], [], [], None); }
    var served := ServeSession(link, s.service, key, salt, frame);
    t := Session(key, salt, served);
  }

  /**
   The connection's own loop: exchanges until one is interrupted or fails, then the session's
   frames. It writes exactly what its trace says, in that order.
   */
  method Serve(link: Link, s: Server) returns (t: Trace)
    modifies link
    ensures t == Connect(s, 0, None, old(link.input))
    ensures link.output == old(link.output) + t.written
  {
    var k := 0;
    var have: Option<Outcome> := None;
    var agreed: seq<Outcome>, written: seq<Bytes>, used: seq<Bytes> := [], [], [];
    ghost var all := Connect(s, 0, None, link.input);
    BeforeNothing(all);
    while true
      invariant all == Before(agreed, written, used, Connect(s, k, have, link.input))
      invariant link.output == old(link.output) + written
      decreases |link.input|
    {
      ghost var frames := link.input;
      var e := RunExchange(link, s.envs(k));
      ConnectStep(s, k, have, frames, e);
      match e {
        case Failed(w, u) =>
          Associates(old(link.output), written, w);
          return Before(agreed, written, used, Trace([], w, u, None));
        case Interrupted(id, frame, w, u, rest) =>
          var later := ServeForeign(link, s, have, id, frame);
          Associates(old(link.output), written, w);
          Associates(old(link.output), written + w, later.written);
          BeforeTwice(agreed, written, used, [], w, u, later);
          return Before(agreed, written, used, Before([], w, u, later));
        case Done(outcome, w, u, rest) =>
          Associates(old(link.output), written, w);
          if !s.hasRegistry { return Before(agreed, written, used, Before([outcome], w, u, Trace([], [], [], None))); }
          BeforeTwice(agreed, written, used, [outcome], w, u, Connect(s, k + 1, Some(outcome), rest));
          agreed, written, used := agreed + [outcome], written + w, used + u;
          k, have := k + 1, Some(outcome);
      }
    }
  }

  lemma BeforeNothing(t: Trace)
    ensures Before([], [], [], t) == t
  {
    assert [] + t.agreed == t.agreed && [] + t.written == t.written && [] + t.used == t.used;
  }

  lemma BeforeTwice(a: seq<Outcome>, w: seq<Bytes>, u: seq<Bytes>, a': seq<Outcome>, w': seq<Bytes>, u': seq<Bytes>, t: Trace)
    ensures Before(a, w, u, Before(a', w', u', t)) == Before(a + a', w + w', u + u', t)
  {
    assert a + (a' + t.agreed) == (a + a') + t.agreed && w + (w' + t.written) == (w + w') + t.written && u + (u' + t.used) == (u + u') + t.used;
  }
}
