/**
 How a connection's handshakes end: with a frame under some key, which may be the key just agreed,
 one from an earlier connection, or one nobody knows.
 */
module ConnectionEnds {
  import opened Wrappers
  import opened ByteStrings
  import opened TlBuffers
  import opened Handshakes
  import opened Connections
  import opened SessionLoops
  import MessageCipher
  import Agreements

  // ---- What interrupts an exchange ----

  /** The frame carries this key id in front, which is not that of a plain message. */
  predicate Keyed(id: Bytes, frame: Bytes) { |frame| >= 8 && id == frame[..8] && id != Zeros(8) }

  lemma {:induction false} ForeignIsKeyed(frames: seq<Bytes>)
    ensures var n := NextReal(frames); n.Foreign? ==> Keyed(n.keyId, n.frame)
  {
    if frames != [] && Classify(frames[0]).Ack? { ForeignIsKeyed(frames[1..]); }
  }

  lemma AfterParamsIsKeyed(env: Env, nonce: Nonce, encrypted: Bytes, frames: seq<Bytes>)
    ensures var e := AfterParams(env, nonce, encrypted, frames); e.Interrupted? ==> Keyed(e.keyId, e.frame)
  {
    ForeignIsKeyed(frames);
  }

  lemma {:induction false} AwaitIsKeyed(env: Env, nonce: Nonce, frames: seq<Bytes>)
    ensures var e := AwaitParams(env, nonce, frames); e.Interrupted? ==> Keyed(e.keyId, e.frame)
    decreases |frames|
  {
    ForeignIsKeyed(frames);
    var next := NextReal(frames);
    if next.Received? {
      if DecodeReqPq(next.data).Some? {
        AwaitIsKeyed(env, DecodeReqPq(next.data).value, next.rest);
      } else if !IsReqPq(next.data) && DecodeReqDh(next.data).Some? {
        AfterParamsIsKeyed(env, nonce, DecodeReqDh(next.data).value, next.rest);
      }
    }
  }

  lemma RunIsKeyed(env: Env, frames: seq<Bytes>)
    ensures var e := Run(env, frames); e.Interrupted? ==> Keyed(e.keyId, e.frame)
  {
    ForeignIsKeyed(frames);
    var next := NextReal(frames);
    if next.Received? && DecodeReqPq(next.data).Some? { AwaitIsKeyed(env, DecodeReqPq(next.data).value, next.rest); }
  }

  /**
   What a session passes over: a plain frame whose bytes 20 to 23 are the id of an acknowledgement,
   whatever its message id. A frame under a key is never passed over.
   */
  lemma WhatIsPassedOver(frame: Bytes)
    ensures IsPlaintextAck(frame) <==>
            && |frame| >= 24 && frame[..8] == Zeros(8)
            && 4 <= Agreements.LengthAt(frame) <= |frame| - 20 && ReadWord32(frame[20..24]) == 0x62D6B459
    ensures |frame| >= 8 && Keyed(frame[..8], frame) ==> !IsPlaintextAck(frame)
  {
    if |frame| >= 8 && frame[..8] == Zeros(8) {
      Agreements.EnvelopeOf(frame);
      if |frame| >= 24 && 4 <= Agreements.LengthAt(frame) <= |frame| - 20 {
        assert frame[20..20 + Agreements.LengthAt(frame)][..4] == frame[20..24];
      }
    }
  }

  // ---- What a frame under a key leads to ----

  /** What a connection owes: a session or none, and what is written. */
  datatype Owed = Owed(session: Option<Serving>, written: seq<Bytes>)

  /** A session under this key and salt, of this frame and then the rest. */
  function SessionOf(s: Server, key: AuthKey, salt: Int64, frame: Bytes, rest: seq<Bytes>): Owed {
    var served := ServeFrom(s.service, key, salt, frame, rest);
    Owed(Some(Serving(key, salt, served.handled, served.failed)), served.written)
  }

  /** The session of the key agreed last, if it is that one's, then of whatever the resolver finds, and else the four bytes of -404. */
  function OwedFor(s: Server, last: Option<Outcome>, frame: Bytes, rest: seq<Bytes>): Owed
    requires |frame| >= 8
  {
    if last.Some? && frame[..8] == MessageCipher.AuthKeyId(s.service.cipher, last.value.key) then
      SessionOf(s, last.value.key, last.value.salt, frame, rest)
    else if s.resolver.None? then Owed(None, [])
    else
      match s.resolver.value(frame[..8])
      case None => Owed(None, [[0x6C, 0xFE, 0xFF, 0xFF]])
      case Some(r) => SessionOf(s, r.key, r.salt, frame, rest)
  }

  /** t pays what is owed after w, and writes nothing else. */
  predicate Pays(t: Trace, w: seq<Bytes>, owed: Owed) { t.session == owed.session && t.written == w + owed.written }

  lemma RefusalBytes()
    ensures EncodeInt32(KEY_NOT_FOUND) == [0x6C, 0xFE, 0xFF, 0xFF]
  {
    var v := 0xFFFF_FE6C;
    assert AsUInt32(KEY_NOT_FOUND) == v;
    OctetOf(0x6C);
    OctetOf(0xFE);
    OctetOf(0xFF);
    assert v % 256 == 0x6C && v / 256 == 0xFF_FFFE && 0xFF_FFFE % 256 == 0xFE && 0xFF_FFFE / 256 == 0xFFFF;
    assert 0xFFFF % 256 == 0xFF && 0xFFFF / 256 == 0xFF && 0xFF % 256 == 0xFF;
    assert Le(0xFF, 1) == [0xFF] + Le(0, 0);
    assert Le(0xFFFF, 2) == [0xFF] + Le(0xFF, 1);
    assert Le(0xFF_FFFE, 3) == [0xFE] + Le(0xFFFF, 2);
    assert Le(v, 4) == [0x6C] + Le(0xFF_FFFE, 3);
  }

  lemma ForeignPays(s: Server, have: Option<Outcome>, frame: Bytes, w: seq<Bytes>, used: seq<Bytes>, rest: seq<Bytes>)
    requires s.hasRegistry && |frame| >= 8
    ensures
      var t := Before([], w, used, OnForeign(s, have, frame[..8], frame, rest));
      t.agreed == [] && t.used == used && Pays(t, w, OwedFor(s, have, frame, rest))
  {
    RefusalBytes();
  }

  /** The key agreed last on this connection. */
  function Last(have: Option<Outcome>, agreed: seq<Outcome>): Option<Outcome> {
    if agreed == [] then have else Some(agreed[|agreed| - 1])
  }

  /** One of the exchanges, from the k-th on, fails. */
  predicate ExchangeFails(s: Server, k: nat, frames: seq<Bytes>)
    decreases |frames|
  {
    RunIgnoresAcks(s.envs(k), frames);
    var e := Run(s.envs(k), frames);
    e.Failed? || (e.Done? && ExchangeFails(s, k + 1, e.rest))
  }

  /** The frame that ended the handshakes, what was written before it, and what came after it. */
  datatype End = End(frame: Bytes, before: seq<Bytes>, rest: seq<Bytes>)

  /** The handshakes ended with this frame, after what was used, and this was paid for it. */
  ghost predicate IsEnd(frames: seq<Bytes>, t: Trace, end: End, owed: Owed) {
    && |end.frame| >= 8 && Keyed(end.frame[..8], end.frame)
    && WithoutAcks(frames) == t.used + [end.frame] + WithoutAcks(end.rest)
    && Pays(t, end.before, owed)
  }

  /** What was paid is what is owed by the key agreed last. */
  ghost predicate EndsWith(s: Server, have: Option<Outcome>, frames: seq<Bytes>, t: Trace, end: End) {
    |end.frame| >= 8 && IsEnd(frames, t, end, OwedFor(s, Last(have, t.agreed), end.frame, end.rest))
  }

  lemma EndsLater(frames: seq<Bytes>, o: Outcome, w: seq<Bytes>, used: seq<Bytes>, rest: seq<Bytes>, later: Trace, end: End, owed: Owed)
    requires WithoutAcks(frames) == used + WithoutAcks(rest) && IsEnd(rest, later, end, owed)
    ensures IsEnd(frames, Before([o], w, used, later), end.(before := w + end.before), owed)
  {
    Associates(w, end.before, owed.written);
    UsedThen(used, later.used, end.frame, WithoutAcks(end.rest));
  }

  /**
   A connection that keeps a registry ends its handshakes in one of two ways. Either an exchange
   fails, and there is no session; or a frame under some key turns up after what was used. Then the
   session runs under the key agreed last if it is that one's, otherwise under the key and salt the
   resolver knows it by; a key that nobody knows is answered by -404 and nothing else.
   */
  lemma {:induction false} HandshakesEnd(s: Server, k: nat, have: Option<Outcome>, frames: seq<Bytes>) returns (end: Option<End>)
    requires s.hasRegistry
    ensures end.None? <==> ExchangeFails(s, k, frames)
    ensures end.None? ==> Connect(s, k, have, frames).session.None?
    ensures end.Some? ==> EndsWith(s, have, frames, Connect(s, k, have, frames), end.value)
    decreases |frames|
  {
    var e := Run(s.envs(k), frames);
    RunIgnoresAcks(s.envs(k), frames);
    RunIsKeyed(s.envs(k), frames);
    ConnectStep(s, k, have, frames, e);
    match e
    case Failed(_, _) => end := None;
    case Interrupted(id, frame, w, used, rest) =>
      InterruptedEnd(s, have, frames, Connect(s, k, have, frames), e);
      end := Some(End(frame, w, rest));
    case Done(o, w, used, rest) =>
      end := HandshakesEnd(s, k + 1, Some(o), rest);
      if end.Some? {
        DoneEnd(s, have, frames, Connect(s, k, have, frames), e, Connect(s, k + 1, Some(o), rest), end.value);
        end := Some(end.value.(before := w + end.value.before));
      }
  }

  lemma InterruptedEnd(s: Server, have: Option<Outcome>, frames: seq<Bytes>, t: Trace, e: Exchange)
    requires s.hasRegistry && e.Interrupted? && Accounts(e, frames) && Keyed(e.keyId, e.frame)
    requires t == Before([], e.written, e.used, OnForeign(s, have, e.keyId, e.frame, e.rest))
    ensures EndsWith(s, have, frames, t, End(e.frame, e.written, e.rest))
  {
    ForeignPays(s, have, e.frame, e.written, e.used, e.rest);
  }

  lemma DoneEnd(s: Server, have: Option<Outcome>, frames: seq<Bytes>, t: Trace, e: Exchange, later: Trace, end: End)
    requires e.Done? && Accounts(e, frames) && t == Before([e.outcome], e.written, e.used, later)
    requires EndsWith(s, Some(e.outcome), e.rest, later, end)
    ensures EndsWith(s, have, frames, t, end.(before := e.written + end.before))
  {
    EndsLater(frames, e.outcome, e.written, e.used, e.rest, later, end, OwedFor(s, Last(Some(e.outcome), later.agreed), end.frame, end.rest));
  }

  lemma UsedThen(used: seq<Bytes>, later: seq<Bytes>, frame: Bytes, rest: seq<Bytes>)
    ensures used + (later + [frame] + rest) == (used + later) + [frame] + rest
  {
  }

  /**
   A client that comes back with a key from an earlier connection: its first frame is the session's
   first, under the key and salt the resolver knows, and all that is written is the session's; if
   nobody knows the key, all that is written is -404.
   */
  lemma ReconnectingClient(s: Server, k: nat, have: Option<Outcome>, first: Bytes, rest: seq<Bytes>)
    requires s.hasRegistry && s.resolver.Some? && |first| >= 8 && Keyed(first[..8], first)
    requires have.Some? ==> first[..8] != MessageCipher.AuthKeyId(s.service.cipher, have.value.key)
    ensures
      var t := Connect(s, k, have, [first] + rest);
      && t.agreed == [] && t.used == []
      && match s.resolver.value(first[..8])
         case None => t.session.None? && t.written == [[0x6C, 0xFE, 0xFF, 0xFF]]
         case Some(r) =>
           var served := ServeFrom(s.service, r.key, r.salt, first, rest);
           && t.session == Some(Serving(r.key, r.salt, served.handled, served.failed)) && t.written == served.written
           && served.handled != [] && served.handled[0] == first
  {
    var frames := [first] + rest;
    assert frames[0] == first && frames[1..] == rest;
    var e := Run(s.envs(k), frames);
    assert e == Interrupted(first[..8], first, [], [], rest);
    ConnectStep(s, k, have, frames, e);
    ForeignPays(s, have, first, [], [], rest);
    WroteOnly(Connect(s, k, have, frames), OwedFor(s, have, first, rest));
    if s.resolver.value(first[..8]).Some? {
      var r := s.resolver.value(first[..8]).value;
      HandledInOrder(s.service, r.key, r.salt, first, rest);
    }
  }

  lemma WroteOnly(t: Trace, owed: Owed)
    requires Pays(t, [], owed)
    ensures t.written == owed.written
  {
  }

  /** Without a registry there is one exchange at most, nothing else is written, not even -404, and there is no session. */
  lemma NoRegistryNoSession(s: Server, frames: seq<Bytes>)
    requires !s.hasRegistry
    ensures
      var t, e := Connect(s, 0, None, frames), Run(s.envs(0), frames);
      && t.session.None? && t.agreed == (if e.Done? then [e.outcome] else [])
      && t.written == e.written && t.used == e.used
  {
    var e := Run(s.envs(0), frames);
    ConnectStep(s, 0, None, frames, e);
    NothingAfter(if e.Done? then [e.outcome] else [], e.written, e.used);
  }

  lemma NothingAfter(agreed: seq<Outcome>, written: seq<Bytes>, used: seq<Bytes>)
    ensures Before(agreed, written, used, Trace([], [], [], None)) == Trace(agreed, written, used, None)
  {
  }
}
