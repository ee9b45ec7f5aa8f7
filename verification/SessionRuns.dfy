/**
 The session object, and what holds over any run of messages it accepts.
 */
module SessionRuns {
  import opened Wrappers
  import opened ByteStrings
  import opened TlBuffers
  import opened InvokeWrappers
  import opened MessageCipher
  import opened Sessions

  // ---- Collecting results in order ----

  /** done, followed by what the rest yields. */
  function After<T>(done: seq<T>, rest: Result<seq<T>, SessionError>): Result<seq<T>, SessionError> {
    if rest.Err? then rest else Ok(done + rest.value)
  }

  lemma AfterNothing<T>(rest: Result<seq<T>, SessionError>)
    ensures After([], rest) == rest
  {
    if rest.Ok? { assert [] + rest.value == rest.value; }
  }

  lemma AfterMore<T>(done: seq<T>, more: seq<T>, rest: Result<seq<T>, SessionError>)
    ensures After(done, After(more, rest)) == After(done + more, rest)
  {
    if rest.Ok? { assert done + (more + rest.value) == (done + more) + rest.value; }
  }

  lemma AfterLast<T>(done: seq<T>)
    ensures After(done, Ok([])) == Ok(done)
  {
    assert done + [] == done;
  }

  // ---- The messages inside one message ----

  function TakeInner(s: Bytes): Result<(InnerMessage, Bytes), SessionError> {
    if |s| < 16 then Err(Malformed)
    else
      var length := AsInt32(ReadWord32(s[12..16]));
      if length < 0 || |s| - 16 < length then Err(Malformed)
      else Ok((InnerMessage(ReadWord64(s[..8]), s[16..16 + length]), s[16 + length..]))
  }

  function TakeInners(s: Bytes, n: nat): Result<seq<InnerMessage>, SessionError>
    decreases |s|
  {
    if n == 0 then Ok([])
    else
      var one := TakeInner(s);
      if one.Err? then Err(one.error)
      else After([one.value.0], TakeInners(one.value.1, n - 1))
  }

  function Inners(d: MessageData): Result<seq<InnerMessage>, SessionError> {
    if |d.data| < 4 then Err(Malformed)
    else if ReadWord32(d.data[..4]) != MSG_CONTAINER then Ok([InnerMessage(d.messageId, d.data)])
    else
      var count := TakeInt32(d.data[4..]);
      if count.Err? || count.value.value < 0 then Err(Malformed) else TakeInners(count.value.rest, count.value.value)
  }

  function NonEmpty(response: Bytes): seq<Bytes> { if response == [] then [] else [response] }

  /** How a session responds to the message at each position. */
  type Responder = nat -> Result<Bytes, SessionError>

  function Respond(handlers: Handlers, inners: seq<InnerMessage>): Responder {
    (i: nat) => if i < |inners| then Dispatch(handlers, i, inners[i]) else Ok([])
  }

  ghost predicate IsResponder(respond: Responder, handlers: Handlers, inners: seq<InnerMessage>) {
    forall i: nat {:trigger Dispatch(handlers, i, inners[i])} | i < |inners| :: respond(i) == Dispatch(handlers, i, inners[i])
  }

  /** The responses from position i on, the empty ones left out; the first failure ends it. */
  function Collect(respond: Responder, n: nat, i: nat): Result<seq<Bytes>, SessionError>
    requires i <= n
    decreases n - i
  {
    if i == n then Ok([])
    else
      var one := respond(i);
      if one.Err? then Err(one.error) else After(NonEmpty(one.value), Collect(respond, n, i + 1))
  }

  function Responses(handlers: Handlers, inners: seq<InnerMessage>): Result<seq<Bytes>, SessionError> {
    Collect(Respond(handlers, inners), |inners|, 0)
  }

  function SeqNoAt(n: nat): Int32 { WrapInt32(2 * n + 1) }

  function Numbered(salt: Int64, sessionId: Int64, counter: nat, bodies: seq<Bytes>): (r: seq<Outgoing>)
    ensures |r| == |bodies|
  {
    seq(|bodies|, i requires 0 <= i < |bodies| => Outgoing(salt, sessionId, SeqNoAt(counter + i), bodies[i]))
  }

  lemma NumberedSnoc(salt: Int64, sessionId: Int64, counter: nat, bodies: seq<Bytes>, body: Bytes)
    ensures Numbered(salt, sessionId, counter, bodies + [body]) ==
            Numbered(salt, sessionId, counter, bodies) + [Outgoing(salt, sessionId, SeqNoAt(counter + |bodies|), body)]
  {
  }

  // ---- The session ----

  datatype State = State(sessionId: Int64, lastSeen: Int64, counter: nat)

  function Handle(s: State, salt: Int64, d: MessageData, handlers: Handlers): Result<(State, seq<Outgoing>), SessionError> {
    if d.messageId <= s.lastSeen then Err(NotIncreasing)
    else
      var inners := Inners(d);
      if inners.Err? then Err(inners.error)
      else
        var bodies := Responses(handlers, inners.value);
        if bodies.Err? then Err(bodies.error)
        else Ok((State(d.sessionId, d.messageId, s.counter + |bodies.value|), Numbered(salt, d.sessionId, s.counter, bodies.value)))
  }

  /** How many responses from position i on are not empty, up to the first failure. */
  function Answered(respond: Responder, n: nat, i: nat): nat
    requires i <= n
    decreases n - i
  {
    if i == n || respond(i).Err? then 0 else |NonEmpty(respond(i).value)| + Answered(respond, n, i + 1)
  }

  lemma {:induction false} AnsweredAll(respond: Responder, n: nat, i: nat)
    requires i <= n
    ensures Collect(respond, n, i).Ok? ==> |Collect(respond, n, i).value| == Answered(respond, n, i)
    decreases n - i
  {
    if i < n { AnsweredAll(respond, n, i + 1); }
  }

  /**
   The session after a message, also when it refuses it: a replayed message still changes the
   session id, and a dispatch that fails leaves the answers before it counted.
   */
  function Afterwards(s: State, d: MessageData, handlers: Handlers): State {
    if d.messageId <= s.lastSeen then s.(sessionId := d.sessionId)
    else
      var inners := Inners(d);
      State(d.sessionId, d.messageId,
            s.counter + if inners.Err? then 0 else Answered(Respond(handlers, inners.value), |inners.value|, 0))
  }

  lemma HandledAfterwards(s: State, salt: Int64, d: MessageData, handlers: Handlers)
    ensures Handle(s, salt, d, handlers).Ok? ==> Handle(s, salt, d, handlers).value.0 == Afterwards(s, d, handlers)
  {
    var inners := Inners(d);
    if inners.Ok? { AnsweredAll(Respond(handlers, inners.value), |inners.value|, 0); }
  }

  class MtprotoSession {
    const key: AuthKey
    const salt: Int64
    const side: Side
    var sessionId: Int64
    var lastSeen: Int64
    var contentSeqCounter: nat

    ghost function Abstract(): State
      reads this
    {
      State(sessionId, lastSeen, contentSeqCounter)
    }

    constructor (key: AuthKey, sessionId: Int64, salt: Int64, side: Side)
      ensures this.key == key && this.salt == salt && this.side == side && Abstract() == State(sessionId, 0, 0)
    {
      this.key, this.sessionId, this.salt, this.side := key, sessionId, salt, side;
      lastSeen, contentSeqCounter := 0, 0;
    }

    method NextSeqNo(contentRelated: bool) returns (r: nat)
      modifies this`contentSeqCounter
      ensures contentRelated ==> r == 2 * old(contentSeqCounter) + 1 && contentSeqCounter == old(contentSeqCounter) + 1
      ensures !contentRelated ==> r == 2 * contentSeqCounter && contentSeqCounter == old(contentSeqCounter)
    {
      if contentRelated {
        r := 2 * contentSeqCounter + 1;
        contentSeqCounter := contentSeqCounter + 1;
        return;
      }
      return 2 * contentSeqCounter;
    }

    method TakeApart(d: MessageData) returns (r: Result<seq<InnerMessage>, SessionError>)
      ensures r == Inners(d)
    {
      var b := new TLBuffer(d.data);
      var id := b.PeekID();
      if id.Err? { return Err(Malformed); }
      if id.value != MSG_CONTAINER { return Ok([InnerMessage(d.messageId, d.data)]); }
      var consumed := b.ConsumeID(id.value);
      var count := b.Int32();
      if count.Err? || count.value < 0 { return Err(Malformed); }
      r := DecodeContainer(b, count.value);
    }

    method DecodeContainer(b: TLBuffer, count: nat) returns (r: Result<seq<InnerMessage>, SessionError>)
      modifies b
      ensures r == TakeInners(old(b.buf), count)
    {
      var messages := [];
      ghost var all := TakeInners(b.buf, count);
      AfterNothing(all);
      for i := 0 to count
        invariant all == After(messages, TakeInners(b.buf, count - i))
      {
        ghost var s := b.buf;
        var m := DecodeInner(b);
        if m.Err? { return Err(m.error); }
        AfterMore(messages, [m.value], TakeInners(b.buf, count - i - 1));
        messages := messages + [m.value];
      }
      AfterLast(messages);
      return Ok(messages);
    }

    method DecodeInner(b: TLBuffer) returns (r: Result<InnerMessage, SessionError>)
      modifies b
      ensures
        var t := TakeInner(old(b.buf));
        if t.Err? then r == Err(t.error) else r == Ok(t.value.0) && b.buf == t.value.1
    {
      ghost var s := b.buf;
      var msgId := b.Long();
      if msgId.Err? { return Err(Malformed); }
      var seqNo := b.Int32();
      if seqNo.Err? { return Err(Malformed); }
      assert b.buf == s[12..];
      var length := b.Int32();
      if length.Err? { return Err(Malformed); }
      assert b.buf == s[16..] && s[12..][..4] == s[12..16];
      if length.value < 0 { return Err(Malformed); }
      var body := b.ConsumeN(length.value);
      if body.Err? { return Err(Malformed); }
      assert s[16..][..length.value] == s[16..16 + length.value] && s[16..][length.value..] == s[16 + length.value..];
      return Ok(InnerMessage(msgId.value, body.value));
    }

    /** Dispatches in order, numbering each response that is not empty. */
    method DispatchInners(handlers: Handlers, inners: seq<InnerMessage>, ghost respond: Responder)
      returns (r: Result<seq<Outgoing>, SessionError>)
      requires IsResponder(respond, handlers, inners)
      modifies this`contentSeqCounter
      ensures
        var bodies := Collect(respond, |inners|, 0);
        r == if bodies.Err? then Err(bodies.error) else Ok(Numbered(salt, sessionId, old(contentSeqCounter), bodies.value))
      ensures contentSeqCounter == old(contentSeqCounter) + Answered(respond, |inners|, 0)
    {
      var replies: seq<Outgoing> := [];
      ghost var bodies: seq<Bytes> := [];
      ghost var n := |inners|;
      ghost var all := Collect(respond, n, 0);
      AfterNothing(all);
      for i := 0 to |inners|
        invariant contentSeqCounter == old(contentSeqCounter) + |bodies|
        invariant Answered(respond, n, 0) == |bodies| + Answered(respond, n, i)
        invariant replies == Numbered(salt, sessionId, old(contentSeqCounter), bodies)
        invariant all == After(bodies, Collect(respond, n, i))
      {
        var response := Response(handlers, inners, i, respond);
        if response.Err? { return Err(response.error); }
        AfterMore(bodies, NonEmpty(response.value), Collect(respond, n, i + 1));
        if response.value != [] {
          var reply := EncryptOutgoing(response.value);
          NumberedSnoc(salt, sessionId, old(contentSeqCounter), bodies, response.value);
          replies := replies + [reply];
          bodies := bodies + [response.value];
        } else {
          assert bodies + [] == bodies;
        }
      }
      AfterLast(bodies);
      return Ok(replies);
    }

    /** The response to the message at one position. */
    method Response(handlers: Handlers, inners: seq<InnerMessage>, i: nat, ghost respond: Responder) returns (r: Result<Bytes, SessionError>)
      requires i < |inners| && IsResponder(respond, handlers, inners)
      ensures r == respond(i)
    {
      r := DispatchOne(handlers, i, inners[i]);
    }

    /** Takes the wrappers off, and answers by the id that is then in front. */
    method DispatchOne(handlers: Handlers, position: nat, m: InnerMessage) returns (r: Result<Bytes, SessionError>)
      ensures r == Dispatch(handlers, position, m)
      ensures r.Ok? ==> if IsAck(m) then r.value == [] else AnswersTo(handlers, position, m, r.value)
      ensures r.Err? ==> Fails(handlers, position, m, r.error)
    {
      DispatchAnswers(handlers, position, m);
      var b := new TLBuffer(m.body);
      var unwrapped := UnwrapInvokeWrappers(b);
      UnwrappedHasId(m.body);
      if unwrapped.Err? {
        return Ok(RpcResult(m.msgId, RpcError(500, "INTERNAL " + What(unwrapped.error))));
      }
      var id := b.PeekID();
      var consumed := b.ConsumeID(id.value);
      if id.value == PING || id.value == PING_DELAY_DISCONNECT {
        var pingId := b.Long();
        if pingId.Err? { return Err(Malformed); }
        if id.value == PING_DELAY_DISCONNECT {
          var delay := b.Int32();
          if delay.Err? { return Err(Malformed); }
        }
        return Ok(Pong(m.msgId, pingId.value));
      }
      if id.value == MSGS_ACK { return Ok([]); }
      r := AnswerToCall(m.msgId, id.value, handlers(position, id.value, b.buf));
    }

    /** Numbers a reply; encryption, and the message id taken from the clock, come after. */
    method EncryptOutgoing(body: Bytes) returns (r: Outgoing)
      modifies this`contentSeqCounter
      ensures r == Outgoing(salt, sessionId, SeqNoAt(old(contentSeqCounter)), body)
      ensures contentSeqCounter == old(contentSeqCounter) + 1
    {
      var seqNo := NextSeqNo(true);
      r := Outgoing(salt, sessionId, WrapInt32(seqNo), body);
    }

    method HandleEncrypted(env: Env, incoming: EncryptedMessage, handlers: Handlers) returns (r: Result<seq<Outgoing>, SessionError>)
      modifies this
      ensures
        var d := Opened(env, key, incoming, side);
        if d.Err? then r == Err(Undecryptable(d.error)) && Abstract() == old(Abstract())
        else
          var h := Handle(old(Abstract()), salt, d.value, handlers);
          && Abstract() == Afterwards(old(Abstract()), d.value, handlers)
          && if h.Err? then r == Err(h.error) else r == Ok(h.value.1) && Abstract() == h.value.0
    {
      var d := DecryptMessage(env, key, incoming, side);
      if d.Err? { return Err(Undecryptable(d.error)); }
      HandledAfterwards(Abstract(), salt, d.value, handlers);
      sessionId := d.value.sessionId;
      if d.value.messageId <= lastSeen { return Err(NotIncreasing); }
      lastSeen := d.value.messageId;
      var inners := TakeApart(d.value);
      if inners.Err? { return Err(inners.error); }
      r := DispatchInners(handlers, inners.value, Respond(handlers, inners.value));
    }
  }

  // ---- Replies and the messages they answer ----

  /** The positions from i on of the messages that are owed an answer, in order. */
  function Answerable(ack: InnerMessage -> bool, inners: seq<InnerMessage>, i: nat): seq<nat>
    requires i <= |inners|
    decreases |inners| - i
  {
    if i == |inners| then [] else (if ack(inners[i]) then [] else [i]) + Answerable(ack, inners, i + 1)
  }

  /** at lists the positions in [i..n) that pick selects, each once and in order. */
  ghost predicate Picks(pick: nat -> bool, i: nat, n: nat, at: seq<nat>) {
    && (forall k | 0 <= k < |at| :: i <= at[k] < n && pick(at[k]))
    && (forall j, k | 0 <= j < k < |at| :: at[j] < at[k])
    && (forall x: nat | i <= x < n && pick(x) :: x in at)
  }

  lemma PicksFront(pick: nat -> bool, i: nat, n: nat, at: seq<nat>)
    requires i < n && pick(i) && Picks(pick, i + 1, n, at)
    ensures Picks(pick, i, n, [i] + at)
  {
    var more := [i] + at;
    assert forall k | 0 < k < |more| :: more[k] == at[k - 1];
    assert more[0] == i;
    forall x: nat | i <= x < n && pick(x) ensures x in more {
      if x > i { assert x in at; }
    }
  }

  lemma PicksSkip(pick: nat -> bool, i: nat, n: nat, at: seq<nat>)
    requires i < n && !pick(i) && Picks(pick, i + 1, n, at)
    ensures Picks(pick, i, n, at)
  {
  }

  lemma PicksNone(pick: nat -> bool, n: nat)
    ensures Picks(pick, n, n, [])
  {
  }

  lemma {:induction false} AnswerablePicks(ack: InnerMessage -> bool, inners: seq<InnerMessage>, i: nat, pick: nat -> bool)
    requires i <= |inners| && forall x: nat | x < |inners| :: pick(x) <==> !ack(inners[x])
    ensures Picks(pick, i, |inners|, Answerable(ack, inners, i))
    decreases |inners| - i
  {
    if i == |inners| {
      PicksNone(pick, i);
    } else {
      AnswerablePicks(ack, inners, i + 1, pick);
      var later := Answerable(ack, inners, i + 1);
      assert pick(i) <==> !ack(inners[i]);
      if ack(inners[i]) {
        assert [] + later == later;
        PicksSkip(pick, i, |inners|, later);
      } else {
        PicksFront(pick, i, |inners|, later);
      }
    }
  }

  type Answers = (nat, Bytes) -> bool

  /** The answers owed at each position. */
  function OwedTo(handlers: Handlers, inners: seq<InnerMessage>): Answers {
    (i: nat, b: Bytes) => i < |inners| && AnswersTo(handlers, i, inners[i], b)
  }

  predicate Matched(answers: Answers, bodies: seq<Bytes>, at: seq<nat>) {
    |bodies| == |at| && forall k | 0 <= k < |bodies| :: answers(at[k], bodies[k])
  }

  lemma MatchedFront(answers: Answers, b: Bytes, i: nat, bodies: seq<Bytes>, at: seq<nat>)
    requires answers(i, b) && Matched(answers, bodies, at)
    ensures Matched(answers, [b] + bodies, [i] + at)
  {
    assert forall k | 0 < k < |[b] + bodies| :: ([b] + bodies)[k] == bodies[k - 1] && ([i] + at)[k] == at[k - 1];
  }

  /** What a responder has to do for the replies to match. */
  ghost predicate Faithful(respond: Responder, ack: InnerMessage -> bool, answers: Answers, inners: seq<InnerMessage>) {
    forall i: nat | i < |inners| && respond(i).Ok? ::
      if ack(inners[i]) then respond(i).value == [] else respond(i).value != [] && answers(i, respond(i).value)
  }

  lemma RespondIsFaithful(handlers: Handlers, inners: seq<InnerMessage>)
    ensures Faithful(Respond(handlers, inners), IsAck, OwedTo(handlers, inners), inners)
  {
    var respond, answers := Respond(handlers, inners), OwedTo(handlers, inners);
    forall i: nat | i < |inners| && respond(i).Ok?
      ensures if IsAck(inners[i]) then respond(i).value == [] else respond(i).value != [] && answers(i, respond(i).value)
    {
      DispatchAnswers(handlers, i, inners[i]);
      if !IsAck(inners[i]) { AnswersCarryId(handlers, i, inners[i], respond(i).value); }
    }
  }

  lemma {:induction false} CollectMatches(respond: Responder, ack: InnerMessage -> bool, answers: Answers, inners: seq<InnerMessage>, i: nat)
    requires i <= |inners| && Faithful(respond, ack, answers, inners) && Collect(respond, |inners|, i).Ok?
    ensures Matched(answers, Collect(respond, |inners|, i).value, Answerable(ack, inners, i))
    decreases |inners| - i
  {
    if i < |inners| {
      assert respond(i).Ok?;
      CollectMatches(respond, ack, answers, inners, i + 1);
      var rest, later := Collect(respond, |inners|, i + 1).value, Answerable(ack, inners, i + 1);
      if ack(inners[i]) {
        assert [] + rest == rest && [] + later == later;
      } else {
        MatchedFront(answers, respond(i).value, i, rest, later);
      }
    }
  }

  // ---- Runs ----

  datatype Call = Call(data: MessageData, handlers: Handlers, replies: seq<Outgoing>)

  /** Call k returned its replies and left the session as states[k + 1] says. */
  predicate ReturnsAt(states: seq<State>, salt: Int64, calls: seq<Call>, k: nat)
    requires |states| == |calls| + 1 && k < |calls|
  {
    Handle(states[k], salt, calls[k].data, calls[k].handlers) == Ok((states[k + 1], calls[k].replies))
  }

  /** states[k] is the session before call k; every call returned. */
  predicate IsRun(states: seq<State>, salt: Int64, calls: seq<Call>) {
    && |states| == |calls| + 1 && states[0].lastSeen == 0 && states[0].counter == 0
    && forall k | 0 <= k < |calls| :: ReturnsAt(states, salt, calls, k)
  }

  /** All replies up to call n, one after another. */
  function AllReplies(calls: seq<Call>, n: nat): seq<Outgoing>
    requires n <= |calls|
  {
    if n == 0 then [] else AllReplies(calls, n - 1) + calls[n - 1].replies
  }

  function Bodies(replies: seq<Outgoing>): (r: seq<Bytes>)
    ensures |r| == |replies|
  {
    seq(|replies|, i requires 0 <= i < |replies| => replies[i].body)
  }

  lemma NumberedReplies(salt: Int64, sessionId: Int64, counter: nat, bodies: seq<Bytes>)
    ensures
      var replies := Numbered(salt, sessionId, counter, bodies);
      && Bodies(replies) == bodies
      && forall i | 0 <= i < |replies| ::
           replies[i].seqNo == SeqNoAt(counter + i) && replies[i].sessionId == sessionId && replies[i].salt == salt
  {
  }

  /** What a call that returned did to the guard and the counter. */
  predicate Advanced(s: State, c: Call, s': State) {
    && s.lastSeen < c.data.messageId == s'.lastSeen && s'.counter == s.counter + |c.replies|
    && forall i | 0 <= i < |c.replies| :: c.replies[i].seqNo == SeqNoAt(s.counter + i) && c.replies[i].sessionId == c.data.sessionId
  }

  lemma HandleAdvances(s: State, salt: Int64, c: Call, s': State)
    requires Handle(s, salt, c.data, c.handlers) == Ok((s', c.replies))
    ensures Advanced(s, c, s')
  {
    NumberedReplies(salt, c.data.sessionId, s.counter, Responses(c.handlers, Inners(c.data).value).value);
  }

  lemma HandleAnswers(s: State, salt: Int64, d: MessageData, handlers: Handlers, s': State, replies: seq<Outgoing>)
    requires Handle(s, salt, d, handlers) == Ok((s', replies))
    ensures Inners(d).Ok?
    ensures Matched(OwedTo(handlers, Inners(d).value), Bodies(replies), Answerable(IsAck, Inners(d).value, 0))
    ensures forall i | 0 <= i < |replies| :: replies[i].salt == salt && replies[i].sessionId == d.sessionId
  {
    var inners := Inners(d).value;
    NumberedReplies(salt, d.sessionId, s.counter, Responses(handlers, inners).value);
    RespondIsFaithful(handlers, inners);
    CollectMatches(Respond(handlers, inners), IsAck, OwedTo(handlers, inners), inners, 0);
  }

  predicate Counted(states: seq<State>, calls: seq<Call>) {
    |states| == |calls| + 1 && forall k | 0 <= k < |calls| :: Advanced(states[k], calls[k], states[k + 1])
  }

  lemma RunIsCounted(states: seq<State>, salt: Int64, calls: seq<Call>)
    requires IsRun(states, salt, calls)
    ensures Counted(states, calls)
  {
    forall k | 0 <= k < |calls| ensures Advanced(states[k], calls[k], states[k + 1]) {
      assert ReturnsAt(states, salt, calls, k);
      HandleAdvances(states[k], salt, calls[k], states[k + 1]);
    }
  }

  lemma {:induction false} LastSeenGrows(states: seq<State>, calls: seq<Call>, j: nat, k: nat)
    requires Counted(states, calls) && j <= k <= |calls|
    ensures states[j].lastSeen <= states[k].lastSeen
    decreases k
  {
    if j < k {
      LastSeenGrows(states, calls, j, k - 1);
      assert Advanced(states[k - 1], calls[k - 1], states[k]);
    }
  }

  /** Accepted message ids strictly increase over the whole run. */
  lemma IdsIncrease(states: seq<State>, salt: Int64, calls: seq<Call>, j: nat, k: nat)
    requires IsRun(states, salt, calls) && j < k < |calls|
    ensures 0 < calls[j].data.messageId < calls[k].data.messageId
  {
    RunIsCounted(states, salt, calls);
    LastSeenGrows(states, calls, 0, j);
    LastSeenGrows(states, calls, j + 1, k);
    assert Advanced(states[j], calls[j], states[j + 1]) && Advanced(states[k], calls[k], states[k + 1]);
  }

  lemma {:induction false} CountedSeqNos(states: seq<State>, calls: seq<Call>, n: nat)
    requires Counted(states, calls) && states[0].counter == 0 && n <= |calls|
    ensures |AllReplies(calls, n)| == states[n].counter
    ensures forall i | 0 <= i < |AllReplies(calls, n)| :: AllReplies(calls, n)[i].seqNo == SeqNoAt(i)
  {
    if n > 0 {
      CountedSeqNos(states, calls, n - 1);
      assert Advanced(states[n - 1], calls[n - 1], states[n]);
      var before: seq<Outgoing>, replies: seq<Outgoing> := AllReplies(calls, n - 1), calls[n - 1].replies;
      forall i | |before| <= i < |before + replies| ensures (before + replies)[i].seqNo == SeqNoAt(i) {
        assert (before + replies)[i] == replies[i - |before|];
      }
    }
  }

  /** Over the whole run the replies are numbered 1, 3, 5, ... as 32-bit integers, across calls and containers. */
  lemma SeqNosAreOdd(states: seq<State>, salt: Int64, calls: seq<Call>)
    requires IsRun(states, salt, calls)
    ensures
      var replies := AllReplies(calls, |calls|);
      && |replies| == states[|calls|].counter
      && forall i | 0 <= i < |replies| :: replies[i].seqNo == SeqNoAt(i) && (i < 0x4000_0000 ==> replies[i].seqNo == 2 * i + 1)
  {
    RunIsCounted(states, salt, calls);
    CountedSeqNos(states, calls, |calls|);
    forall i: nat | i < 0x4000_0000 ensures SeqNoAt(i) == 2 * i + 1 { OddWhileSmall(i); }
  }

  lemma OddWhileSmall(i: nat)
    requires i < 0x4000_0000
    ensures SeqNoAt(i) == 2 * i + 1
  {
  }

  /** The message at a position is no acknowledgement. */
  function Owing(inners: seq<InnerMessage>): nat -> bool { (x: nat) => x < |inners| && !IsAck(inners[x]) }

  /**
   In each call the replies answer, in order and one to one, the inner messages that are not
   acknowledgements, each with what its message is owed, under the session id the call came with
   and the session's salt.
   */
  lemma RepliesMatch(states: seq<State>, salt: Int64, calls: seq<Call>, k: nat) returns (at: seq<nat>)
    requires IsRun(states, salt, calls) && k < |calls|
    ensures Inners(calls[k].data).Ok?
    ensures
      var inners, c := Inners(calls[k].data).value, calls[k];
      && |at| == |c.replies| && Picks(Owing(inners), 0, |inners|, at)
      && forall i | 0 <= i < |at| :: at[i] < |inners| && AnswersTo(c.handlers, at[i], inners[at[i]], c.replies[i].body)
    ensures forall i | 0 <= i < |calls[k].replies| :: calls[k].replies[i].sessionId == calls[k].data.sessionId && calls[k].replies[i].salt == salt
  {
    var c := calls[k];
    assert ReturnsAt(states, salt, calls, k);
    HandleAnswers(states[k], salt, c.data, c.handlers, states[k + 1], c.replies);
    var inners := Inners(c.data).value;
    at := Answerable(IsAck, inners, 0);
    AnswerablePicks(IsAck, inners, 0, Owing(inners));
    OwedBodies(c.handlers, inners, c.replies, at);
  }

  lemma OwedBodies(handlers: Handlers, inners: seq<InnerMessage>, replies: seq<Outgoing>, at: seq<nat>)
    requires Matched(OwedTo(handlers, inners), Bodies(replies), at)
    ensures |at| == |replies|
    ensures forall i | 0 <= i < |at| :: at[i] < |inners| && AnswersTo(handlers, at[i], inners[at[i]], replies[i].body)
  {
    var answers := OwedTo(handlers, inners);
    forall i | 0 <= i < |at| ensures at[i] < |inners| && AnswersTo(handlers, at[i], inners[at[i]], replies[i].body) {
      assert answers(at[i], Bodies(replies)[i]);
    }
  }

  // ---- Containers ----

  /** A message as a client puts it in a container: with a sequence number of its own. */
  function EncodeInner(m: InnerMessage, seqNo: Int32): Bytes {
    Word64(m.msgId) + (EncodeInt32(seqNo) + (EncodeInt32(WrapInt32(|m.body|)) + m.body))
  }

  function EncodeInners(messages: seq<InnerMessage>, seqNos: seq<Int32>): Bytes
    requires |seqNos| == |messages|
  {
    if messages == [] then [] else EncodeInner(messages[0], seqNos[0]) + EncodeInners(messages[1..], seqNos[1..])
  }

  function EncodeContainer(messages: seq<InnerMessage>, seqNos: seq<Int32>): Bytes
    requires |seqNos| == |messages|
  {
    Word32(0x73F1F8DC) + (EncodeInt32(WrapInt32(|messages|)) + EncodeInners(messages, seqNos))
  }

  lemma InnerParts(id: Bytes, seqNo: Bytes, length: Bytes, body: Bytes, rest: Bytes)
    requires |id| == 8 && |seqNo| == |length| == 4
    ensures
      var s := id + (seqNo + (length + body)) + rest;
      && |s| == 16 + |body| + |rest|
      && s[..8] == id && s[12..16] == length && s[16..16 + |body|] == body && s[16 + |body|..] == rest
  {
    var s := id + (seqNo + (length + body)) + rest;
    assert s[8..] == seqNo + (length + (body + rest));
    assert s[12..] == s[8..][4..] == length + (body + rest);
    assert s[16..] == s[12..][4..] == body + rest;
    assert s[12..16] == s[12..][..4] && s[16..16 + |body|] == s[16..][..|body|] && s[16 + |body|..] == s[16..][|body|..];
  }

  lemma InnerTrip(m: InnerMessage, seqNo: Int32, rest: Bytes)
    requires |m.body| < 0x8000_0000
    ensures TakeInner(EncodeInner(m, seqNo) + rest) == Ok((m, rest))
  {
    var length := EncodeInt32(WrapInt32(|m.body|));
    InnerParts(Word64(m.msgId), EncodeInt32(seqNo), length, m.body, rest);
    Word64Trip(m.msgId, Word64(m.msgId));
    Word32Trip(AsUInt32(WrapInt32(|m.body|)), length);
    SmallCount(|m.body|);
  }

  lemma {:induction false} InnersTrip(messages: seq<InnerMessage>, seqNos: seq<Int32>)
    requires |seqNos| == |messages| && forall m | m in messages :: |m.body| < 0x8000_0000
    ensures TakeInners(EncodeInners(messages, seqNos), |messages|) == Ok(messages)
  {
    if messages != [] {
      var rest := EncodeInners(messages[1..], seqNos[1..]);
      InnersTrip(messages[1..], seqNos[1..]);
      InnerTrip(messages[0], seqNos[0], rest);
      assert [messages[0]] + messages[1..] == messages;
    }
  }

  /**
   The messages a client puts in a container are those the session finds in it, in order, whatever
   their sequence numbers; and a message that is no container is found as it is, under its own id.
   */
  lemma ContainerTrip(messages: seq<InnerMessage>, seqNos: seq<Int32>, d: MessageData)
    requires |seqNos| == |messages| < 0x8000_0000 && forall m | m in messages :: |m.body| < 0x8000_0000
    ensures d.data == EncodeContainer(messages, seqNos) ==> Inners(d) == Ok(messages)
    ensures |d.data| >= 4 && ReadWord32(d.data[..4]) != 0x73F1F8DC ==> Inners(d) == Ok([InnerMessage(d.messageId, d.data)])
  {
    if d.data == EncodeContainer(messages, seqNos) {
      var count, inners := EncodeInt32(WrapInt32(|messages|)), EncodeInners(messages, seqNos);
      IdInFront(0x73F1F8DC, count + inners);
      Int32Trip(WrapInt32(|messages|), inners);
      SmallCount(|messages|);
      InnersTrip(messages, seqNos);
    }
  }

  lemma IdInFront(id: UInt32, rest: Bytes)
    ensures var s := Word32(id) + rest; |s| >= 4 && ReadWord32(s[..4]) == id && s[4..] == rest
  {
    assert (Word32(id) + rest)[..4] == Word32(id);
    Word32Trip(id, Word32(id));
  }
}
