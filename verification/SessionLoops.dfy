/**
 A session on a connection: frames come in, are opened and dispatched, and the replies go out
 encrypted, until a frame cannot be handled or no more come.
 */
module SessionLoops {
  import opened Wrappers
  import opened ByteStrings
  import opened TlBuffers
  import opened MessageCipher
  import opened Sessions
  import opened SessionRuns
  import opened Links
  import Handshakes

  /** What encrypting one reply takes from the clock and from the random source. */
  datatype Draw = Draw(messageId: Int64, randByte: byte, padding: nat -> byte)

  /** What a session calls on: the handlers, as they are at the n-th frame, and the draws for the n-th reply. */
  datatype Service = Service(cipher: Env, handlers: nat -> Handlers, draws: nat -> Draw)

  // ---- Which frames a session is given ----

  /** A stray acknowledgement in the session phase. Its message id is not looked at there. */
  predicate IsPlaintextAck(frame: Bytes) {
    && |frame| >= 8 && frame[..8] == Zeros(8)
    && var e := Handshakes.DecodeEnvelope(frame);
    e.Some? && |e.value.data| >= 4 && ReadWord32(e.value.data[..4]) == MSGS_ACK
  }

  function SessionFrames(frames: seq<Bytes>): seq<Bytes> {
    if frames == [] then []
    else (if IsPlaintextAck(frames[0]) then [] else [frames[0]]) + SessionFrames(frames[1..])
  }

  // ---- One frame ----

  function Drawn(d: Draw, length: nat): (r: Bytes)
    ensures |r| == Padding(WrapInt32(32 + length), d.randByte)
  {
    PaddingAligns(32 + length, d.randByte);
    seq(Padding(WrapInt32(32 + length), d.randByte), i requires 0 <= i => d.padding(i))
  }

  /** A reply as it goes out. */
  function Wire(env: Env, key: AuthKey, o: Outgoing, d: Draw): Bytes {
    PaddingAligns(32 + |o.body|, d.randByte);
    Encode(Sealed(env, key, Header(o.salt, o.sessionId, d.messageId, o.seqNo, |o.body|) + o.body + Drawn(d, |o.body|), Server))
  }

  /** f of each reply and its number, the first of them being the n-th. */
  function Each(f: (Outgoing, nat) -> Bytes, replies: seq<Outgoing>, n: nat): (r: seq<Bytes>)
    ensures |r| == |replies|
  {
    seq(|replies|, i requires 0 <= i < |replies| => f(replies[i], n + i))
  }

  /** How a session's k-th reply goes out. */
  function Sender(service: Service, key: AuthKey): (Outgoing, nat) -> Bytes {
    (o: Outgoing, k: nat) => Wire(service.cipher, key, o, service.draws(k))
  }

  /** Replies as they go out, the first of them being the n-th of the session. */
  function Wires(service: Service, key: AuthKey, replies: seq<Outgoing>, n: nat): (r: seq<Bytes>)
    ensures |r| == |replies|
  {
    Each(Sender(service, key), replies, n)
  }

  /** The session object, and how many frames it has handled and replies it has sent. */
  datatype Progress = Progress(state: State, frames: nat, replies: nat)

  const START: Progress := Progress(State(0, 0, 0), 0, 0)

  /** What the session makes of an encrypted message, if it does not refuse it. */
  function Received(service: Service, key: AuthKey, salt: Int64, p: Progress, m: EncryptedMessage): Option<(State, seq<Outgoing>)> {
    var d := Opened(service.cipher, key, m, Server);
    if d.Err? then None
    else
      var h := Handle(p.state, salt, d.value, service.handlers(p.frames));
      if h.Err? then None else Some(h.value)
  }

  function Sent(service: Service, key: AuthKey, p: Progress, h: (State, seq<Outgoing>)): (Progress, seq<Bytes>) {
    (Progress(h.0, p.frames + 1, p.replies + |h.1|), Wires(service, key, h.1, p.replies))
  }

  function Answer(service: Service, key: AuthKey, salt: Int64, p: Progress, frame: Bytes): Option<(Progress, seq<Bytes>)> {
    var m := Decode(frame);
    if m.Err? then None
    else
      var h := Received(service, key, salt, p, m.value);
      if h.None? then None else Some(Sent(service, key, p, h.value))
  }

  lemma Refuses(service: Service, key: AuthKey, salt: Int64, p: Progress, frame: Bytes)
    requires Decode(frame).Ok? && Received(service, key, salt, p, Decode(frame).value).None?
    ensures Answer(service, key, salt, p, frame) == None
  {
  }

  lemma Replies(service: Service, key: AuthKey, salt: Int64, p: Progress, frame: Bytes, h: (State, seq<Outgoing>), r: (Progress, seq<Bytes>))
    requires Decode(frame).Ok? && Received(service, key, salt, p, Decode(frame).value).Some?
    requires Received(service, key, salt, p, Decode(frame).value).value == h && r == Sent(service, key, p, h)
    ensures Answer(service, key, salt, p, frame) == Some(r)
  {
  }

  lemma SentIs(service: Service, key: AuthKey, p: Progress, h: (State, seq<Outgoing>), r: (Progress, seq<Bytes>))
    requires r.0 == Progress(h.0, p.frames + 1, p.replies + |h.1|) && r.1 == Wires(service, key, h.1, p.replies)
    ensures r == Sent(service, key, p, h)
  {
  }

  // ---- All frames ----

  type Answerer = (Progress, Bytes) -> Option<(Progress, seq<Bytes>)>

  function Answering(service: Service, key: AuthKey, salt: Int64): Answerer {
    (p: Progress, frame: Bytes) => Answer(service, key, salt, p, frame)
  }

  /** The frames handled, the last of which may have failed, and what was written. */
  datatype Served = Served(handled: seq<Bytes>, written: seq<Bytes>, failed: bool)

  function Preceded(handled: seq<Bytes>, written: seq<Bytes>, s: Served): Served {
    Served(handled + s.handled, written + s.written, s.failed)
  }

  function ServeFrames(answer: Answerer, p: Progress, frames: seq<Bytes>): Served
    decreases |frames|, 0
  {
    if frames == [] then Served([], [], false)
    else if IsPlaintextAck(frames[0]) then ServeFrames(answer, p, frames[1..])
    else ServeNext(answer, p, frames[0], frames[1..])
  }

  function ServeNext(answer: Answerer, p: Progress, frame: Bytes, rest: seq<Bytes>): Served
    decreases |rest|, 1
  {
    var a := answer(p, frame);
    if a.None? then Served([frame], [], true) else Preceded([frame], a.value.1, ServeFrames(answer, a.value.0, rest))
  }

  /** A session from its first frame on. */
  function ServeFrom(service: Service, key: AuthKey, salt: Int64, first: Bytes, rest: seq<Bytes>): Served {
    ServeNext(Answering(service, key, salt), START, first, rest)
  }

  // ---- Acknowledgements ----

  lemma AckIsPlaintextAck(frame: Bytes)
    requires Handshakes.Classify(frame).Ack?
    ensures IsPlaintextAck(frame)
  {
    var e := Handshakes.DecodeEnvelope(frame);
    assert |frame| >= 20;
  }

  lemma {:induction false} ServeIgnoresAcks(answer: Answerer, p: Progress, frames: seq<Bytes>)
    ensures ServeFrames(answer, p, Handshakes.WithoutAcks(frames)) == ServeFrames(answer, p, frames)
    decreases |frames|
  {
    if frames != [] {
      var without := Handshakes.WithoutAcks(frames);
      if Handshakes.Classify(frames[0]).Ack? {
        AckIsPlaintextAck(frames[0]);
        assert without == Handshakes.WithoutAcks(frames[1..]);
        ServeIgnoresAcks(answer, p, frames[1..]);
      } else {
        assert without[0] == frames[0] && without[1..] == Handshakes.WithoutAcks(frames[1..]);
        if IsPlaintextAck(frames[0]) {
          ServeIgnoresAcks(answer, p, frames[1..]);
        } else if answer(p, frames[0]).Some? {
          ServeIgnoresAcks(answer, answer(p, frames[0]).value.0, frames[1..]);
        }
      }
    }
  }

  /** What a session handles and writes does not depend on the acknowledgements between its frames. */
  lemma ServiceIgnoresAcks(service: Service, key: AuthKey, salt: Int64, first: Bytes, rest: seq<Bytes>)
    ensures ServeFrom(service, key, salt, first, Handshakes.WithoutAcks(rest)) == ServeFrom(service, key, salt, first, rest)
  {
    var answer := Answering(service, key, salt);
    var a := answer(START, first);
    if a.Some? { ServeIgnoresAcks(answer, a.value.0, rest); }
  }

  lemma {:induction false} ServedInOrder(answer: Answerer, p: Progress, frames: seq<Bytes>)
    ensures var s := ServeFrames(answer, p, frames); s.handled <= SessionFrames(frames) && (!s.failed ==> s.handled == SessionFrames(frames))
    decreases |frames|
  {
    if frames != [] {
      if IsPlaintextAck(frames[0]) {
        ServedInOrder(answer, p, frames[1..]);
      } else if answer(p, frames[0]).Some? {
        ServedInOrder(answer, answer(p, frames[0]).value.0, frames[1..]);
      }
    }
  }

  /** A session is given its first frame and then, in order, all that are no acknowledgements, up to one it fails on. */
  lemma HandledInOrder(service: Service, key: AuthKey, salt: Int64, first: Bytes, rest: seq<Bytes>)
    ensures
      var s := ServeFrom(service, key, salt, first, rest);
      && s.handled != [] && s.handled[0] == first
      && s.handled <= [first] + SessionFrames(rest)
      && (!s.failed ==> s.handled == [first] + SessionFrames(rest))
  {
    var answer := Answering(service, key, salt);
    var a := answer(START, first);
    if a.Some? { ServedInOrder(answer, a.value.0, rest); }
  }

  // ---- The loop ----

  /** Hands one message to the session. */
  method Receive(service: Service, session: MtprotoSession, p: Progress, m: EncryptedMessage) returns (r: Option<(State, seq<Outgoing>)>)
    requires session.side == Server && p.state == session.Abstract()
    modifies session
    ensures r == Received(service, session.key, session.salt, p, m)
    ensures r.Some? ==> session.Abstract() == r.value.0
  {
    var replies := session.HandleEncrypted(service.cipher, m, service.handlers(p.frames));
    if replies.Err? { return None; }
    return Some((State(session.sessionId, session.lastSeen, session.contentSeqCounter), replies.value));
  }

  /** Handles one frame; nothing of it is written unless all of it could be handled. */
  method HandleFrame(link: Link, service: Service, session: MtprotoSession, p: Progress, frame: Bytes, ghost answer: Answerer)
    returns (r: Option<(Progress, seq<Bytes>)>)
    requires session.side == Server && p.state == session.Abstract() && answer == Answering(service, session.key, session.salt)
    modifies link`output, session
    ensures r == answer(p, frame)
    ensures link.output == old(link.output) + if r.Some? then r.value.1 else []
    ensures r.Some? ==> session.Abstract() == r.value.0.state
  {
    var b := new TLBuffer(frame);
    var m := DecodeInPlace(b);
    if m.Err? { return None; }
    var h := Receive(service, session, p, m.value);
    if h.None? {
      Refuses(service, session.key, session.salt, p, frame);
      return None;
    }
    var written := WriteReplies(link, service, session.key, h.value.1, p.replies);
    var sent := (Progress(h.value.0, p.frames + 1, p.replies + |h.value.1|), written);
    SentIs(service, session.key, p, h.value, sent);
    Replies(service, session.key, session.salt, p, frame, h.value, sent);
    return Some(sent);
  }

  method WriteReplies(link: Link, service: Service, key: AuthKey, replies: seq<Outgoing>, n: nat) returns (written: seq<Bytes>)
    modifies link`output
    ensures written == Wires(service, key, replies, n) && link.output == old(link.output) + written
  {
    ghost var sender := Sender(service, key);
    written := [];
    for i := 0 to |replies|
      invariant written == Each(sender, replies, n)[..i]
      invariant link.output == old(link.output) + written
    {
      var payload := WriteReply(link, service, key, replies[i], n + i, sender);
      assert payload == Each(sender, replies, n)[i];
      Associates(old(link.output), written, [payload]);
      written := written + [payload];
    }
  }

  method WriteReply(link: Link, service: Service, key: AuthKey, o: Outgoing, k: nat, ghost sender: (Outgoing, nat) -> Bytes) returns (payload: Bytes)
    requires sender == Sender(service, key)
    modifies link`output
    ensures payload == sender(o, k) && link.output == old(link.output) + [payload]
  {
    var d := service.draws(k);
    var sealed := EncryptMessage(service.cipher, key, o.salt, o.sessionId, d.messageId, o.seqNo, o.body, Server, d.randByte, Drawn(d, |o.body|));
    payload := Encode(sealed);
    link.Write(payload);
  }

  lemma PrecededTwice(h: seq<Bytes>, w: seq<Bytes>, h': seq<Bytes>, w': seq<Bytes>, s: Served)
    ensures Preceded(h, w, Preceded(h', w', s)) == Preceded(h + h', w + w', s)
  {
    assert h + (h' + s.handled) == (h + h') + s.handled && w + (w' + s.written) == (w + w') + s.written;
  }

  lemma PrecededByNothing(s: Served)
    ensures Preceded([], [], s) == s
  {
  }

  datatype Round = Goes(progress: Progress, written: seq<Bytes>, next: Bytes) | Ends(served: Served)

  /** One round of the loop: a frame is handled and the next one read. */
  method ServeOne(link: Link, service: Service, session: MtprotoSession, p: Progress, frame: Bytes, ghost answer: Answerer) returns (r: Round)
    requires session.side == Server && p.state == session.Abstract() && answer == Answering(service, session.key, session.salt)
    modifies link, session
    ensures r.Ends? ==>
      && ServeNext(answer, p, frame, old(link.input)) == r.served
      && link.output == old(link.output) + r.served.written
    ensures r.Goes? ==>
      && ServeNext(answer, p, frame, old(link.input)) == Preceded([frame], r.written, ServeNext(answer, r.progress, r.next, link.input))
      && link.output == old(link.output) + r.written && |link.input| < |old(link.input)|
      && r.progress.state == session.Abstract()
  {
    var a := HandleFrame(link, service, session, p, frame, answer);
    if a.None? { return Ends(Served([frame], [], true)); }
    var next := ReadNextFrame(link, answer, a.value.0);
    if next.None? { return Ends(Served([frame], a.value.1, false)); }
    return Goes(a.value.0, a.value.1, next.value);
  }

  /** The session phase of a connection: the frame that ended the handshakes, then the frames read from the link. */
  method ServeSession(link: Link, service: Service, key: AuthKey, salt: Int64, first: Bytes) returns (served: Served)
    modifies link
    ensures served == ServeFrom(service, key, salt, first, old(link.input))
    ensures link.output == old(link.output) + served.written
  {
    var session := new MtprotoSession(key, 0, salt, Server);
    var p, frame := START, first;
    var handled: seq<Bytes>, written: seq<Bytes> := [], [];
    ghost var answer := Answering(service, key, salt);
    ghost var all := ServeNext(answer, p, first, link.input);
    PrecededByNothing(all);
    while true
      invariant fresh(session) && session.side == Server && session.key == key && session.salt == salt && p.state == session.Abstract()
      invariant all == Preceded(handled, written, ServeNext(answer, p, frame, link.input))
      invariant link.output == old(link.output) + written
      decreases |link.input|
    {
      var round := ServeOne(link, service, session, p, frame, answer);
      match round {
        case Ends(last) =>
          Associates(old(link.output), written, last.written);
          return Preceded(handled, written, last);
        case Goes(progress, more, next) =>
          Associates(old(link.output), written, more);
          PrecededTwice(handled, written, [frame], more, ServeNext(answer, progress, next, link.input));
          handled, written, p, frame := handled + [frame], written + more, progress, next;
      }
    }
  }

  /** Reads on past acknowledgements. */
  method ReadNextFrame(link: Link, ghost answer: Answerer, ghost p: Progress) returns (r: Option<Bytes>)
    modifies link`input
    ensures r.None? ==> ServeFrames(answer, p, old(link.input)) == Served([], [], false)
    ensures r.Some? ==>
      && ServeFrames(answer, p, old(link.input)) == ServeNext(answer, p, r.value, link.input)
      && |link.input| < |old(link.input)|
  {
    while true
      invariant ServeFrames(answer, p, link.input) == ServeFrames(answer, p, old(link.input))
      invariant |link.input| <= |old(link.input)|
      decreases |link.input|
    {
      r := link.Read();
      if r.None? || !IsPlaintextAck(r.value) { return; }
    }
  }
}
