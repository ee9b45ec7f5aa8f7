/**
 What it takes to agree on a key: which frames an exchange that ends in a key has read, what it
 has written for them, and how long the key lives.
 */
module Agreements {
  import opened Wrappers
  import opened ByteStrings
  import opened Handshakes
  import ServerCrypto
  import AuthTables

  // ---- What a frame is, by its bytes ----

  /** The length field of a plain frame. */
  function LengthAt(frame: Bytes): Int32
    requires |frame| >= 20
  {
    AsInt32(ReadWord32(frame[16..20]))
  }

  /** Eight zeros, a client's message id, and a length of four bytes at least that is there. */
  predicate IsPlainFrame(frame: Bytes) {
    && |frame| >= 24 && frame[..8] == Zeros(8)
    && ReadWord64(frame[8..16]) % 4 == 0
    && 4 <= LengthAt(frame) <= |frame| - 20
  }

  lemma ZeroId()
    ensures ReadWord64(Zeros(8)) == 0
  {
    ServerCrypto.LeOfZero(8);
    Word64Trip(0, Zeros(8));
  }

  lemma EnvelopeOf(frame: Bytes)
    requires |frame| >= 8 && frame[..8] == Zeros(8)
    ensures
      DecodeEnvelope(frame) ==
      if |frame| >= 20 && 0 <= LengthAt(frame) <= |frame| - 20
      then Some(Envelope(ReadWord64(frame[8..16]), frame[20..20 + LengthAt(frame)])) else None
  {
    ZeroId();
  }

  /** A frame is encrypted by its first eight bytes; of the others an acknowledgement is known by bytes 20 to 23. */
  lemma KindsByPosition(frame: Bytes)
    ensures
      var kind := Classify(frame);
      && (kind.Encrypted? <==> |frame| >= 8 && frame[..8] != Zeros(8))
      && (kind.Encrypted? ==> kind.keyId == frame[..8])
      && (kind.Ack? || kind.Real? <==> IsPlainFrame(frame))
      && (kind.Ack? <==> IsPlainFrame(frame) && ReadWord32(frame[20..24]) == 0x62D6B459)
      && (kind.Real? ==> kind.data == frame[20..20 + LengthAt(frame)])
  {
    if |frame| >= 8 && frame[..8] == Zeros(8) {
      EnvelopeOf(frame);
      if IsPlainFrame(frame) { assert frame[20..20 + LengthAt(frame)][..4] == frame[20..24]; }
    }
  }

  // ---- How long a key lives ----

  /** A permanent key is stored with 0; a temporary one with its last second, or it is refused. */
  lemma WhenItExpires(inner: Inner, now: int)
    ensures
      var e := ExpiresAt(inner, now);
      && (!inner.temporary ==> e == Some(0))
      && (inner.temporary ==> (e.Some? <==> inner.expiresIn > 0 && 0 < now + inner.expiresIn < 0x8000_0000))
      && (inner.temporary && e.Some? ==> e.value == now + inner.expiresIn)
  {
  }

  // ---- What an agreement takes ----

  predicate Asks(frame: Bytes, nonce: Nonce) { Classify(frame).Real? && DecodeReqPq(Classify(frame).data) == Some(nonce) }

  predicate Requests(frame: Bytes, encrypted: Bytes) {
    Classify(frame).Real? && !IsReqPq(Classify(frame).data) && DecodeReqDh(Classify(frame).data) == Some(encrypted)
  }

  predicate AnswersWith(frame: Bytes, answer: Bytes) { Classify(frame).Real? && DecodeSetClient(Classify(frame).data) == Some(answer) }

  /** What the client sent after its nonces: the two encrypted parts. */
  datatype Evidence = Evidence(encrypted: Bytes, inner: Inner, answer: Bytes)

  /** The outcome follows from what the two encrypted parts hold. */
  predicate Follows(env: Env, v: Evidence, o: Outcome) {
    && env.unpad(v.encrypted).Some? && DecodeInner(env.unpad(v.encrypted).value) == Some(v.inner)
    && ExpiresAt(v.inner, env.now) == Some(o.expiresAt)
    && env.agree(v.inner.newNonce, v.answer) == Some(o.key)
    && o.salt == env.salt(v.inner.newNonce)
  }

  /** A request and an answer, and what was written for them. */
  predicate Closes(env: Env, used: seq<Bytes>, written: seq<Bytes>, nonce: Nonce, o: Outcome, v: Evidence) {
    && |used| == |written| == 2
    && Requests(used[0], v.encrypted) && written[0] == env.paramsOk(nonce, v.inner.newNonce)
    && AnswersWith(used[1], v.answer) && written[1] == env.genOk(nonce, v.inner.newNonce, o.key)
    && Follows(env, v, o)
  }

  /** Each req_pq was answered by its resPQ, then the request by the parameters and the answer by dh_gen_ok, for the last nonce. */
  predicate Earned(env: Env, used: seq<Bytes>, written: seq<Bytes>, nonces: seq<Nonce>, o: Outcome, v: Evidence)
    decreases |nonces|
  {
    && nonces != [] && used != [] && written != []
    && Asks(used[0], nonces[0]) && written[0] == env.resPq(nonces[0])
    && if |nonces| == 1 then Closes(env, used[1..], written[1..], nonces[0], o, v)
       else Earned(env, used[1..], written[1..], nonces[1..], o, v)
  }

  lemma {:induction false} NextIsReal(frames: seq<Bytes>)
    ensures var n := NextReal(frames); n.Received? ==> Classify(n.frame) == Real(n.data)
  {
    if frames != [] && Classify(frames[0]).Ack? { NextIsReal(frames[1..]); }
  }

  lemma AnswerCloses(env: Env, nonce: Nonce, inner: Inner, expiresAt: int, frames: seq<Bytes>) returns (answer: Bytes)
    requires AwaitClient(env, nonce, inner, expiresAt, frames).Done?
    ensures
      var e := AwaitClient(env, nonce, inner, expiresAt, frames);
      && |e.used| == |e.written| == 1
      && AnswersWith(e.used[0], answer) && e.written[0] == env.genOk(nonce, inner.newNonce, e.outcome.key)
      && env.agree(inner.newNonce, answer) == Some(e.outcome.key)
      && e.outcome.salt == env.salt(inner.newNonce) && e.outcome.expiresAt == expiresAt
  {
    NextIsReal(frames);
    answer := DecodeSetClient(NextReal(frames).data).value;
  }

  /** The two last messages. */
  lemma LastTwo(env: Env, nonce: Nonce, request: Bytes, encrypted: Bytes, frames: seq<Bytes>) returns (v: Evidence)
    requires Requests(request, encrypted) && AfterParams(env, nonce, encrypted, frames).Done?
    ensures var e := AfterParams(env, nonce, encrypted, frames); Closes(env, [request] + e.used, e.written, nonce, e.outcome, v)
  {
    var inner := DecodeInner(env.unpad(encrypted).value).value;
    var answer := AnswerCloses(env, nonce, inner, ExpiresAt(inner, env.now).value, frames);
    v := Evidence(encrypted, inner, answer);
  }

  lemma EarnedLast(env: Env, first: Bytes, nonce: Nonce, used: seq<Bytes>, written: seq<Bytes>, o: Outcome, v: Evidence)
    requires Asks(first, nonce) && Closes(env, used, written, nonce, o, v)
    ensures Earned(env, [first] + used, [env.resPq(nonce)] + written, [nonce], o, v)
  {
    assert ([first] + used)[1..] == used && ([env.resPq(nonce)] + written)[1..] == written;
  }

  lemma EarnedBefore(env: Env, first: Bytes, nonce: Nonce, used: seq<Bytes>, written: seq<Bytes>, nonces: seq<Nonce>, o: Outcome, v: Evidence)
    requires Asks(first, nonce) && Earned(env, used, written, nonces, o, v)
    ensures Earned(env, [first] + used, [env.resPq(nonce)] + written, [nonce] + nonces, o, v)
  {
    assert ([first] + used)[1..] == used && ([env.resPq(nonce)] + written)[1..] == written && ([nonce] + nonces)[1..] == nonces;
  }

  lemma {:induction false} AwaitIsEarned(env: Env, nonce: Nonce, first: Bytes, frames: seq<Bytes>) returns (nonces: seq<Nonce>, v: Evidence)
    requires Asks(first, nonce) && AwaitParams(env, nonce, frames).Done?
    ensures var e := AwaitParams(env, nonce, frames); Earned(env, [first] + e.used, e.written, nonces, e.outcome, v)
    decreases |frames|
  {
    NextIsReal(frames);
    var next := NextReal(frames);
    if IsReqPq(next.data) {
      var again := DecodeReqPq(next.data).value;
      var later := AwaitParams(env, again, next.rest);
      nonces, v := AwaitIsEarned(env, again, next.frame, next.rest);
      EarnedBefore(env, first, nonce, [next.frame] + later.used, later.written, nonces, later.outcome, v);
      nonces := [nonce] + nonces;
    } else {
      var encrypted := DecodeReqDh(next.data).value;
      var later := AfterParams(env, nonce, encrypted, next.rest);
      v := LastTwo(env, nonce, next.frame, encrypted, next.rest);
      EarnedLast(env, first, nonce, [next.frame] + later.used, later.written, later.outcome, v);
      nonces := [nonce];
    }
  }

  /**
   An exchange that ends in a key has read nothing but one or more req_pq, a req_DH_params whose
   RSA part unpads to a p_q_inner_data, and a set_client_DH_params that gives a key; it has written
   a resPQ for each of the first, the parameters and dh_gen_ok, and the key, salt and expiry follow
   from what it has read.
   */
  lemma AgreementIsEarned(env: Env, frames: seq<Bytes>) returns (nonces: seq<Nonce>, v: Evidence)
    requires Run(env, frames).Done?
    ensures var e := Run(env, frames); Earned(env, e.used, e.written, nonces, e.outcome, v)
  {
    NextIsReal(frames);
    var next := NextReal(frames);
    var nonce := DecodeReqPq(next.data).value;
    var later := AwaitParams(env, nonce, next.rest);
    nonces, v := AwaitIsEarned(env, nonce, next.frame, next.rest);
    assert [] + later.written == later.written;
  }

  lemma {:induction false} EarnedFollows(env: Env, used: seq<Bytes>, written: seq<Bytes>, nonces: seq<Nonce>, o: Outcome, v: Evidence)
    requires Earned(env, used, written, nonces, o, v)
    ensures Follows(env, v, o)
    decreases |nonces|
  {
    if |nonces| > 1 { EarnedFollows(env, used[1..], written[1..], nonces[1..], o, v); }
  }

  /** Every agreed key has an expiry that the key store takes, and it is a temporary key's exactly when one was asked for. */
  lemma AgreedKeysCanBeSaved(env: Env, frames: seq<Bytes>) returns (nonces: seq<Nonce>, v: Evidence)
    requires Run(env, frames).Done?
    ensures var e := Run(env, frames); Earned(env, e.used, e.written, nonces, e.outcome, v)
    ensures var o := Run(env, frames).outcome; AuthTables.ValidExpiry(o.expiresAt) && (o.expiresAt > 0 <==> v.inner.temporary)
  {
    nonces, v := AgreementIsEarned(env, frames);
    var e := Run(env, frames);
    EarnedFollows(env, e.used, e.written, nonces, e.outcome, v);
    WhenItExpires(v.inner, env.now);
  }
}
