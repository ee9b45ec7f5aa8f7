/**
 The server's side of a key exchange, as a function of the frames it reads. The calculations
 behind the messages are parameters; which frames are read, in what order, and what is written
 in between is not.
 */
module Handshakes {
  import opened Wrappers
  import opened ByteStrings
  import opened TlBuffers
  import MessageCipher

  type AuthKey = MessageCipher.AuthKey

  type NewNonce = s: Bytes | |s| == 32 witness Zeros(32)

  const REQ_PQ: UInt32 := 0x60469778
  const REQ_PQ_MULTI: UInt32 := 0xBE7E8EF1
  const REQ_DH_PARAMS: UInt32 := 0xD712E4BE
  const SET_CLIENT_DH_PARAMS: UInt32 := 0xF5045F1F
  const INNER_PLAIN: UInt32 := 0x83C95AEC
  const INNER_DC: UInt32 := 0xA9F55F95
  const INNER_TEMP_DC: UInt32 := 0x56FDDF88

  // ---- Frames ----

  datatype Envelope = Envelope(messageId: Int64, data: Bytes)

  function DecodeEnvelope(s: Bytes): Option<Envelope> {
    if |s| < 20 || ReadWord64(s[..8]) != 0 then None
    else
      var length := AsInt32(ReadWord32(s[16..20]));
      if length < 0 || |s| - 20 < length then None else Some(Envelope(ReadWord64(s[8..16]), s[20..20 + length]))
  }

  /** What the handshake makes of a frame. */
  datatype Kind = Encrypted(keyId: Bytes) | Broken | Ack | Real(data: Bytes)

  predicate FromClient(messageId: Int64) { messageId % 4 == 0 }

  function Classify(frame: Bytes): Kind {
    if |frame| >= 8 && frame[..8] != Zeros(8) then Encrypted(frame[..8])
    else
      var e := DecodeEnvelope(frame);
      if e.None? || !FromClient(e.value.messageId) || |e.value.data| < 4 then Broken
      else if ReadWord32(e.value.data[..4]) == MSGS_ACK then Ack
      else Real(e.value.data)
  }

  function WithoutAcks(frames: seq<Bytes>): seq<Bytes> {
    if frames == [] then []
    else (if Classify(frames[0]).Ack? then [] else [frames[0]]) + WithoutAcks(frames[1..])
  }

  /** The next message that is not an acknowledgement, and the frames after it. */
  datatype Next = Received(data: Bytes, frame: Bytes, rest: seq<Bytes>) | Foreign(keyId: Bytes, frame: Bytes, rest: seq<Bytes>) | Stuck

  function NextReal(frames: seq<Bytes>): (r: Next)
    ensures !r.Stuck? ==> |r.rest| < |frames|
  {
    if frames == [] then Stuck
    else
      match Classify(frames[0])
      case Ack => NextReal(frames[1..])
      case Broken => Stuck
      case Encrypted(id) => Foreign(id, frames[0], frames[1..])
      case Real(data) => Received(data, frames[0], frames[1..])
  }

  // ---- Messages ----

  type Nonce = s: Bytes | |s| == 16 witness Zeros(16)

  predicate IsReqPq(data: Bytes) {
    |data| >= 4 && (ReadWord32(data[..4]) == REQ_PQ || ReadWord32(data[..4]) == REQ_PQ_MULTI)
  }

  function DecodeReqPq(data: Bytes): Option<Nonce> {
    if !IsReqPq(data) || |data| < 20 then None else Some(data[4..20])
  }

  /** Skips n TL strings. */
  function SkipStrings(s: Bytes, n: nat): Option<Bytes>
    decreases n, s
  {
    if n == 0 then Some(s)
    else
      var t := TakeBytes(s);
      if t.Err? then None else SkipStrings(t.value.rest, n - 1)
  }

  /** The encrypted part of req_DH_params. */
  function DecodeReqDh(data: Bytes): Option<Bytes> {
    var id := TakeId(data, REQ_DH_PARAMS);
    if id.Err? || |id.value| < 32 then None
    else
      var pq := SkipStrings(id.value[32..], 2);
      if pq.None? then None
      else
        var fingerprint := TakeLong(pq.value);
        if fingerprint.Err? then None
        else
          var encrypted := TakeBytes(fingerprint.value.rest);
          if encrypted.Err? then None else Some(encrypted.value.value)
  }

  function DecodeSetClient(data: Bytes): Option<Bytes> {
    var id := TakeId(data, SET_CLIENT_DH_PARAMS);
    if id.Err? || |id.value| < 32 then None
    else
      var encrypted := TakeBytes(id.value[32..]);
      if encrypted.Err? then None else Some(encrypted.value.value)
  }

  /** What of p_q_inner_data decides anything: the new nonce and, for a temporary key, its lifetime. */
  datatype Inner = Inner(newNonce: NewNonce, temporary: bool, expiresIn: int)

  function DecodeInner(s: Bytes): Option<Inner> {
    if |s| < 4 then None
    else
      var id := ReadWord32(s[..4]);
      if id != INNER_PLAIN && id != INNER_DC && id != INNER_TEMP_DC then None
      else
        var pq := SkipStrings(s[4..], 3);
        if pq.None? || |pq.value| < 64 then None
        else
          var newNonce, rest := pq.value[32..64], pq.value[64..];
          if id == INNER_PLAIN then Some(Inner(newNonce, false, 0))
          else
            var dc := TakeInt32(rest);
            if dc.Err? then None
            else if id == INNER_DC then Some(Inner(newNonce, false, 0))
            else
              var expires := TakeInt32(dc.value.rest);
              if expires.Err? then None else Some(Inner(newNonce, true, expires.value.value))
  }

  /** The expiry the key is stored with: 0 for a permanent key; nothing when the request is refused. */
  function ExpiresAt(inner: Inner, now: int): Option<int> {
    if !inner.temporary then Some(0)
    else if inner.expiresIn <= 0 then None
    else if now + inner.expiresIn <= 0 || now + inner.expiresIn > 0x7FFF_FFFF then None
    else Some(now + inner.expiresIn)
  }

  // ---- The exchange ----

  /** What an exchange draws and calculates: its randomness, keys and clock are in these functions. */
  datatype Env = Env(
    now: int,
    unpad: Bytes -> Option<Bytes>,          // RSA_PAD decoding
    agree: (NewNonce, Bytes) -> Option<AuthKey>, // the auth key, from the new nonce and the client's encrypted g_b
    salt: NewNonce -> Int64,
    resPq: Nonce -> Bytes,                  // the three payloads the server sends
    paramsOk: (Nonce, NewNonce) -> Bytes,
    genOk: (Nonce, NewNonce, AuthKey) -> Bytes)

  datatype Outcome = Agreed(key: AuthKey, salt: Int64, expiresAt: int)

  /** How an exchange ends: what it wrote, the frames it took, and what it left unread. */
  datatype Exchange =
    | Done(outcome: Outcome, written: seq<Bytes>, used: seq<Bytes>, rest: seq<Bytes>)
    | Interrupted(keyId: Bytes, frame: Bytes, written: seq<Bytes>, used: seq<Bytes>, rest: seq<Bytes>)
    | Failed(written: seq<Bytes>, used: seq<Bytes>)

  /** The last message, once the parameters have been sent. */
  function AwaitClient(env: Env, nonce: Nonce, inner: Inner, expiresAt: int, frames: seq<Bytes>): Exchange {
    match NextReal(frames)
    case Stuck => Failed([], [])
    case Foreign(id, frame, rest) => Interrupted(id, frame, [], [], rest)
    case Received(data, frame, rest) =>
      var encrypted := DecodeSetClient(data);
      if encrypted.None? then Failed([], [frame])
      else
        var key := env.agree(inner.newNonce, encrypted.value);
        if key.None? then Failed([], [frame])
        else
          Done(Agreed(key.value, env.salt(inner.newNonce), expiresAt), [env.genOk(nonce, inner.newNonce, key.value)], [frame], rest)
  }

  /** What was written and used before, in front of how the exchange goes on. */
  function Earlier(written: seq<Bytes>, used: seq<Bytes>, e: Exchange): Exchange {
    match e
    case Done(o, w, u, rest) => Done(o, written + w, used + u, rest)
    case Interrupted(id, frame, w, u, rest) => Interrupted(id, frame, written + w, used + u, rest)
    case Failed(w, u) => Failed(written + w, used + u)
  }

  function AfterParams(env: Env, nonce: Nonce, encrypted: Bytes, frames: seq<Bytes>): Exchange {
    var plain := env.unpad(encrypted);
    if plain.None? then Failed([], [])
    else
      var inner := DecodeInner(plain.value);
      if inner.None? then Failed([], [])
      else
        var expiresAt := ExpiresAt(inner.value, env.now);
        if expiresAt.None? then Failed([], [])
        else Earlier([env.paramsOk(nonce, inner.value.newNonce)], [], AwaitClient(env, nonce, inner.value, expiresAt.value, frames))
  }

  /** Sends resPQ, and sends it again for every repeated req_pq. */
  function AwaitParams(env: Env, nonce: Nonce, frames: seq<Bytes>): Exchange
    decreases |frames|
  {
    match NextReal(frames)
    case Stuck => Failed([env.resPq(nonce)], [])
    case Foreign(id, frame, rest) => Interrupted(id, frame, [env.resPq(nonce)], [], rest)
    case Received(data, frame, rest) =>
      if IsReqPq(data) then
        var again := DecodeReqPq(data);
        if again.None? then Failed([env.resPq(nonce)], [frame])
        else Earlier([env.resPq(nonce)], [frame], AwaitParams(env, again.value, rest))
      else
        var encrypted := DecodeReqDh(data);
        if encrypted.None? then Failed([env.resPq(nonce)], [frame])
        else Earlier([env.resPq(nonce)], [frame], AfterParams(env, nonce, encrypted.value, rest))
  }

  function Run(env: Env, frames: seq<Bytes>): Exchange {
    match NextReal(frames)
    case Stuck => Failed([], [])
    case Foreign(id, frame, rest) => Interrupted(id, frame, [], [], rest)
    case Received(data, frame, rest) =>
      var nonce := DecodeReqPq(data);
      if nonce.None? then Failed([], [frame]) else Earlier([], [frame], AwaitParams(env, nonce.value, rest))
  }

  // ---- Acknowledgements change nothing ----

  function NextWithoutAcks(n: Next): Next {
    match n
    case Received(data, frame, rest) => Received(data, frame, WithoutAcks(rest))
    case Foreign(id, frame, rest) => Foreign(id, frame, WithoutAcks(rest))
    case Stuck => Stuck
  }

  lemma {:induction false} NextIgnoresAcks(frames: seq<Bytes>)
    ensures NextReal(WithoutAcks(frames)) == NextWithoutAcks(NextReal(frames))
    ensures !NextReal(frames).Stuck? ==> WithoutAcks(frames) == [NextReal(frames).frame] + WithoutAcks(NextReal(frames).rest)
  {
    if frames != [] {
      if Classify(frames[0]).Ack? {
        NextIgnoresAcks(frames[1..]);
        assert WithoutAcks(frames) == WithoutAcks(frames[1..]);
      } else {
        assert WithoutAcks(frames)[0] == frames[0] && WithoutAcks(frames)[1..] == WithoutAcks(frames[1..]);
      }
    }
  }

  function RestWithoutAcks(e: Exchange): Exchange {
    match e
    case Done(o, w, u, rest) => Done(o, w, u, WithoutAcks(rest))
    case Interrupted(id, frame, w, u, rest) => Interrupted(id, frame, w, u, WithoutAcks(rest))
    case Failed(w, u) => Failed(w, u)
  }

  /** The frames an exchange took, and the one that interrupted it, are the front of its input; one that fails took its last in vain. */
  predicate Accounts(e: Exchange, frames: seq<Bytes>) {
    match e
    case Done(_, _, used, rest) => WithoutAcks(frames) == used + WithoutAcks(rest) && |rest| < |frames|
    case Interrupted(_, frame, _, used, rest) => WithoutAcks(frames) == used + [frame] + WithoutAcks(rest) && |rest| < |frames|
    case Failed(_, used) => used <= WithoutAcks(frames)
  }

  lemma AwaitClientIgnoresAcks(env: Env, nonce: Nonce, inner: Inner, expiresAt: int, frames: seq<Bytes>)
    ensures AwaitClient(env, nonce, inner, expiresAt, WithoutAcks(frames)) == RestWithoutAcks(AwaitClient(env, nonce, inner, expiresAt, frames))
  {
    NextIgnoresAcks(frames);
  }

  lemma AwaitClientAccounts(env: Env, nonce: Nonce, inner: Inner, expiresAt: int, frames: seq<Bytes>)
    ensures Accounts(AwaitClient(env, nonce, inner, expiresAt, frames), frames)
  {
    NextIgnoresAcks(frames);
    var e := AwaitClient(env, nonce, inner, expiresAt, frames);
    if e.Interrupted? { assert [] + [e.frame] == [e.frame]; }
  }

  lemma EarlierKeeps(written: seq<Bytes>, used: seq<Bytes>, e: Exchange, f: Bytes, frames: seq<Bytes>, rest: seq<Bytes>)
    requires Accounts(e, rest) && WithoutAcks(frames) == used + WithoutAcks(rest) && |rest| <= |frames|
    ensures Accounts(Earlier(written, used, e), frames)
    ensures RestWithoutAcks(Earlier(written, used, e)) == Earlier(written, used, RestWithoutAcks(e))
  {
    match e
    case Done(_, _, u, r) => assert used + (u + WithoutAcks(r)) == (used + u) + WithoutAcks(r);
    case Interrupted(_, frame, _, u, r) => assert used + (u + [frame] + WithoutAcks(r)) == (used + u) + [frame] + WithoutAcks(r);
    case Failed(_, u) => assert used + u <= used + WithoutAcks(rest);
  }

  lemma AfterParamsIgnoresAcks(env: Env, nonce: Nonce, encrypted: Bytes, frames: seq<Bytes>)
    ensures AfterParams(env, nonce, encrypted, WithoutAcks(frames)) == RestWithoutAcks(AfterParams(env, nonce, encrypted, frames))
    ensures Accounts(AfterParams(env, nonce, encrypted, frames), frames)
  {
    var plain := env.unpad(encrypted);
    if plain.Some? && DecodeInner(plain.value).Some? {
      var inner := DecodeInner(plain.value).value;
      var expiresAt := ExpiresAt(inner, env.now);
      if expiresAt.Some? {
        AwaitClientIgnoresAcks(env, nonce, inner, expiresAt.value, frames);
        AwaitClientAccounts(env, nonce, inner, expiresAt.value, frames);
        var e := AwaitClient(env, nonce, inner, expiresAt.value, frames);
        assert [] + WithoutAcks(frames) == WithoutAcks(frames);
        EarlierKeeps([env.paramsOk(nonce, inner.newNonce)], [], e, [], frames, frames);
      }
    }
  }

  /** n is what is next in frames, acknowledgements or not. */
  ghost predicate NextIs(frames: seq<Bytes>, data: Bytes, frame: Bytes, rest: seq<Bytes>) {
    && NextReal(frames) == Received(data, frame, rest) && NextReal(WithoutAcks(frames)) == Received(data, frame, WithoutAcks(rest))
    && WithoutAcks(frames) == [frame] + WithoutAcks(rest) && |rest| < |frames|
  }

  ghost predicate Ignores(e: Exchange, withoutAcks: Exchange, frames: seq<Bytes>) {
    withoutAcks == RestWithoutAcks(e) && Accounts(e, frames)
  }

  lemma RepeatIgnoresAcks(env: Env, nonce: Nonce, frames: seq<Bytes>, data: Bytes, frame: Bytes, rest: seq<Bytes>, again: Nonce)
    requires NextIs(frames, data, frame, rest) && DecodeReqPq(data) == Some(again)
    requires Ignores(AwaitParams(env, again, rest), AwaitParams(env, again, WithoutAcks(rest)), rest)
    ensures Ignores(AwaitParams(env, nonce, frames), AwaitParams(env, nonce, WithoutAcks(frames)), frames)
  {
    EarlierKeeps([env.resPq(nonce)], [frame], AwaitParams(env, again, rest), frame, frames, rest);
  }

  lemma ParamsIgnoreAcks(env: Env, nonce: Nonce, frames: seq<Bytes>, data: Bytes, frame: Bytes, rest: seq<Bytes>, encrypted: Bytes)
    requires NextIs(frames, data, frame, rest) && !IsReqPq(data) && DecodeReqDh(data) == Some(encrypted)
    ensures Ignores(AwaitParams(env, nonce, frames), AwaitParams(env, nonce, WithoutAcks(frames)), frames)
  {
    AfterParamsIgnoresAcks(env, nonce, encrypted, rest);
    EarlierKeeps([env.resPq(nonce)], [frame], AfterParams(env, nonce, encrypted, rest), frame, frames, rest);
  }

  lemma {:induction false} AwaitParamsIgnoresAcks(env: Env, nonce: Nonce, frames: seq<Bytes>)
    ensures Ignores(AwaitParams(env, nonce, frames), AwaitParams(env, nonce, WithoutAcks(frames)), frames)
    decreases |frames|
  {
    NextIgnoresAcks(frames);
    match NextReal(frames)
    case Stuck =>
    case Foreign(id, frame, rest) => assert [] + [frame] == [frame];
    case Received(data, frame, rest) =>
      if DecodeReqPq(data).Some? {
        AwaitParamsIgnoresAcks(env, DecodeReqPq(data).value, rest);
        RepeatIgnoresAcks(env, nonce, frames, data, frame, rest, DecodeReqPq(data).value);
      } else if !IsReqPq(data) && DecodeReqDh(data).Some? {
        ParamsIgnoreAcks(env, nonce, frames, data, frame, rest, DecodeReqDh(data).value);
      }
  }

  lemma FirstIgnoresAcks(env: Env, frames: seq<Bytes>, data: Bytes, frame: Bytes, rest: seq<Bytes>, nonce: Nonce)
    requires NextIs(frames, data, frame, rest) && DecodeReqPq(data) == Some(nonce)
    ensures Ignores(Run(env, frames), Run(env, WithoutAcks(frames)), frames)
  {
    AwaitParamsIgnoresAcks(env, nonce, rest);
    EarlierKeeps([], [frame], AwaitParams(env, nonce, rest), frame, frames, rest);
  }

  /** Acknowledgements anywhere in its input change neither the result nor what is written. */
  lemma RunIgnoresAcks(env: Env, frames: seq<Bytes>)
    ensures Run(env, WithoutAcks(frames)) == RestWithoutAcks(Run(env, frames))
    ensures Accounts(Run(env, frames), frames)
  {
    NextIgnoresAcks(frames);
    match NextReal(frames)
    case Stuck =>
    case Foreign(id, frame, rest) => assert [] + [frame] == [frame];
    case Received(data, frame, rest) =>
      if DecodeReqPq(data).Some? { FirstIgnoresAcks(env, frames, data, frame, rest, DecodeReqPq(data).value); }
  }
}
