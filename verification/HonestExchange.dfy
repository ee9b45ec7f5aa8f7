/**
 A client that keeps to the protocol, and its exchange with the server: both end with one key,
 one salt, and the client's proof that the server has them.
 */
module HonestExchange {
  import opened Wrappers
  import opened ByteStrings
  import opened TlBuffers
  import opened Ige
  import opened ExchangeAnswers
  import opened Handshakes
  import opened ModArith
  import opened ServerCrypto
  import Bignum
  import DiffieHellman
  import RsaPadding

  // ---- The client ----

  datatype Kind = Permanent | InDc(dc: Int32) | Temporary(dc: Int32, expiresIn: Int32)

  /** What a client chooses and draws. tempKey is the draw with which RSA_PAD fits. */
  datatype Client = Client(
    multi: bool, nonce: Nonce, newNonce: NewNonce, kind: Kind, p: Bytes, q: Bytes,
    rsaPadding: nat -> byte, tempKey: Digest,
    b: Bytes, retryId: Int64, padding: nat -> byte,
    helloId: Int64, requestId: Int64, answerId: Int64)

  /** A plain message's fields after its id and its two nonces. */
  datatype Fields = Fields(nonce: Nonce, serverNonce: Nonce, rest: Bytes)

  function ReadNonces(data: Bytes, id: UInt32): Option<Fields> {
    var t := TakeId(data, id);
    if t.Err? || |t.value| < 32 then None else Some(Fields(t.value[..16], t.value[16..32], t.value[32..]))
  }

  function ReadPlain(frame: Bytes, id: UInt32): Option<Fields> {
    var e := DecodeEnvelope(frame);
    if e.None? then None else ReadNonces(e.value.data, id)
  }

  /** The client checks the nonces of every message. */
  predicate IsFor(f: Fields, nonce: Nonce, serverNonce: Nonce) { f.nonce == nonce && f.serverNonce == serverNonce }

  function HelloData(cl: Client): Bytes { Word32(if cl.multi then REQ_PQ_MULTI else REQ_PQ) + cl.nonce }

  datatype ResPq = ResPq(nonce: Nonce, serverNonce: Nonce, pq: Bytes, fingerprint: Int64)

  function ReadResPq(frame: Bytes): Option<ResPq> {
    var f := ReadPlain(frame, RES_PQ);
    if f.None? then None
    else
      var pq := ReadPq(f.value.rest);
      if pq.None? then None else Some(ResPq(f.value.nonce, f.value.serverNonce, pq.value.pq, pq.value.fingerprint))
  }

  datatype Offer = Offer(pq: Bytes, fingerprint: Int64)

  function ReadPq(s: Bytes): Option<Offer> {
    var pq := TakeBytes(s);
    if pq.Err? then None
    else
      var count := TakeVectorHeader(pq.value.rest);
      if count.Err? || count.value.value < 1 then None
      else
        var fingerprint := TakeLong(count.value.rest);
        if fingerprint.Err? then None else Some(Offer(pq.value.value, fingerprint.value.value))
  }

  function KindId(k: Kind): UInt32 {
    match k
    case Permanent => INNER_PLAIN
    case InDc(_) => INNER_DC
    case Temporary(_, _) => INNER_TEMP_DC
  }

  function KindFields(k: Kind): Bytes {
    match k
    case Permanent => []
    case InDc(dc) => EncodeInt32(dc)
    case Temporary(dc, expiresIn) => EncodeInt32(dc) + EncodeInt32(expiresIn)
  }

  function InnerData(cl: Client, r: ResPq): Bytes {
    Word32(KindId(cl.kind)) + (EncodeBytes(r.pq) + (EncodeBytes(cl.p) + (EncodeBytes(cl.q) +
      (r.nonce + r.serverNonce + (cl.newNonce + KindFields(cl.kind))))))
  }

  function RsaPadded(cl: Client, r: ResPq): (s: Bytes)
    requires |InnerData(cl, r)| <= RsaPadding.DATA_LIMIT
    ensures |s| == 192
  {
    InnerData(cl, r) + seq(RsaPadding.PADDED_LENGTH - |InnerData(cl, r)|, i requires 0 <= i => cl.rsaPadding(i))
  }

  function RequestData(c: Crypto, cl: Client, r: ResPq): Bytes
    requires |InnerData(cl, r)| <= RsaPadding.DATA_LIMIT
  {
    Nonces(REQ_DH_PARAMS, r.nonce, r.serverNonce,
           EncodeBytes(cl.p) + (EncodeBytes(cl.q) + (Word64(r.fingerprint) +
             EncodeBytes(c.key.encrypt(RsaPadding.Attempt(RsaEnv(c), RsaPadded(cl, r), cl.tempKey))))))
  }

  datatype DhParams = DhParams(g: Int32, prime: Bytes, ga: Bytes, time: Int32)

  function ReadDhInner(data: Bytes, nonce: Nonce, serverNonce: Nonce): Option<DhParams> {
    var f := ReadNonces(data, SERVER_DH_INNER);
    if f.None? || !IsFor(f.value, nonce, serverNonce) then None else ReadGroup(f.value.rest)
  }

  function ReadGroup(s: Bytes): Option<DhParams> {
    var g := TakeInt32(s);
    if g.Err? then None
    else
      var prime := TakeBytes(g.value.rest);
      if prime.Err? then None
      else
        var ga := TakeBytes(prime.value.rest);
        if ga.Err? then None
        else
          var time := TakeInt32(ga.value.rest);
          if time.Err? then None else Some(DhParams(g.value.value, prime.value.value, ga.value.value, time.value.value))
  }

  function ReadParams(c: Crypto, cl: Client, r: ResPq, frame: Bytes): Option<DhParams> {
    var f := ReadPlain(frame, SERVER_DH_PARAMS_OK);
    if f.None? || !IsFor(f.value, r.nonce, r.serverNonce) then None
    else OpenParams(c, cl.newNonce, r.nonce, r.serverNonce, f.value.rest)
  }

  function OpenParams(c: Crypto, newNonce: NewNonce, nonce: Nonce, serverNonce: Nonce, s: Bytes): Option<DhParams> {
    var encrypted := TakeBytes(s);
    if encrypted.Err? then None
    else
      var plain := Opened(c, newNonce, serverNonce, encrypted.value.value);
      if plain.Err? then None else ReadDhInner(plain.value, nonce, serverNonce)
  }

  /** The client's public value, in the group the server named. */
  function ClientPublic(cl: Client, dh: DhParams): Bytes {
    if 0 <= dh.g < 256 && Nat(dh.prime) > 0 then Bignum.ModPow([Octet(dh.g)], cl.b, dh.prime) else []
  }

  function ClientInner(cl: Client, r: ResPq, dh: DhParams): Bytes {
    Nonces(CLIENT_DH_INNER, r.nonce, r.serverNonce, Word64(cl.retryId) + EncodeBytes(ClientPublic(cl, dh)))
  }

  function AnswerData(c: Crypto, cl: Client, r: ResPq, dh: DhParams): Bytes {
    Nonces(SET_CLIENT_DH_PARAMS, r.nonce, r.serverNonce,
           EncodeBytes(Answered(c, cl.newNonce, r.serverNonce, ClientInner(cl, r, dh), cl.padding)))
  }

  /** The client's key. */
  function ClientKey(cl: Client, dh: DhParams): Option<AuthKey> {
    if Nat(dh.prime) == 0 then None
    else
      var key := DiffieHellman.ModPowFixed(dh.ga, cl.b, dh.prime, 256);
      if key.Err? || |key.value| != 256 then None else Some(key.value)
  }

  /** dh_gen_ok proves that the server has this key. */
  predicate Proves(c: Crypto, cl: Client, r: ResPq, key: AuthKey, frame: Bytes) {
    var f := ReadPlain(frame, DH_GEN_OK);
    f.Some? && IsFor(f.value, r.nonce, r.serverNonce) && |f.value.rest| >= 16 && f.value.rest[..16] == NonceHash(c.sha1, cl.newNonce, key)
  }

  // ---- Each message is read as it was meant ----

  function ServerParams(d: Draws): DhParams { DhParams(DiffieHellman.GENERATOR, FixedDhPrime(), PublicValue(d.a), d.serverTime) }

  function ServerResPq(c: Crypto, d: Draws, cl: Client): ResPq { ResPq(cl.nonce, d.serverNonce, PQ, c.fingerprint) }

  lemma NoncesRead(id: UInt32, nonce: Nonce, serverNonce: Nonce, fields: Bytes)
    ensures ReadNonces(Nonces(id, nonce, serverNonce, fields), id) == Some(Fields(nonce, serverNonce, fields))
    ensures |Nonces(id, nonce, serverNonce, fields)| == 36 + |fields|
    ensures ReadWord32(Nonces(id, nonce, serverNonce, fields)[..4]) == id
    ensures TakeId(Nonces(id, nonce, serverNonce, fields), id) == Ok(nonce + (serverNonce + fields))
  {
    var rest := nonce + (serverNonce + fields);
    WordTrip(id, rest);
    Word32Trip(id, Word32(id));
    assert (Word32(id) + rest)[..4] == Word32(id);
    AfterNonces(nonce, serverNonce, fields);
  }

  lemma AfterNonces(nonce: Nonce, serverNonce: Nonce, fields: Bytes)
    ensures
      var s := nonce + (serverNonce + fields);
      |s| == 32 + |fields| && s[..16] == nonce && s[16..32] == serverNonce && s[32..] == fields
  {
  }

  lemma PlainNonces(messageId: Int64, id: UInt32, nonce: Nonce, serverNonce: Nonce, fields: Bytes)
    requires |fields| < 0x7000_0000
    ensures ReadPlain(Plain(messageId, Nonces(id, nonce, serverNonce, fields)), id) == Some(Fields(nonce, serverNonce, fields))
  {
    NoncesRead(id, nonce, serverNonce, fields);
    PlainReads(messageId, Nonces(id, nonce, serverNonce, fields));
  }

  /** A client's frame is a message for the handshake. */
  lemma FrameIsReal(messageId: Int64, data: Bytes)
    requires FromClient(messageId) && 4 <= |data| < 0x8000_0000 && ReadWord32(data[..4]) != MSGS_ACK
    ensures Classify(Plain(messageId, data)) == Real(data)
  {
    PlainReads(messageId, data);
  }

  lemma IdThenNonce(id: UInt32, nonce: Nonce, data: Bytes)
    requires data == Word32(id) + nonce
    ensures |data| == 20 && ReadWord32(data[..4]) == id && data[4..20] == nonce
  {
    assert data[..4] == Word32(id);
    Word32Trip(id, Word32(id));
  }

  lemma HelloRead(cl: Client)
    requires FromClient(cl.helloId)
    ensures Classify(Plain(cl.helloId, HelloData(cl))) == Real(HelloData(cl)) && DecodeReqPq(HelloData(cl)) == Some(cl.nonce)
  {
    IdThenNonce(if cl.multi then REQ_PQ_MULTI else REQ_PQ, cl.nonce, HelloData(cl));
    FrameIsReal(cl.helloId, HelloData(cl));
  }

  lemma SizeOfBytes(v: Bytes)
    requires |v| < 0x100_0000
    ensures |EncodeBytes(v)| <= |v| + 8
  {
    PaddingBound(|BytesHeader(|v|)| + |v|);
    if |v| > 253 { LongHeader(|v|); }
  }

  lemma OfferRead(pq: Bytes, fingerprint: Int64)
    requires |pq| < 100
    ensures
      var s := EncodeBytes(pq) + (EncodeVectorHeader(1) + Word64(fingerprint));
      ReadPq(s) == Some(Offer(pq, fingerprint)) && |s| < 200
  {
    SizeOfBytes(pq);
    BytesTrip(pq, EncodeVectorHeader(1) + Word64(fingerprint));
    VectorHeaderTrip(1, Word64(fingerprint));
    assert Word64(fingerprint) + [] == Word64(fingerprint);
    LongTrip(fingerprint, []);
  }

  lemma ResPqRead(c: Crypto, d: Draws, nonce: Nonce)
    ensures ReadResPq(Plain(d.resPqId, ResPqData(c, d, nonce))) == Some(ResPq(nonce, d.serverNonce, PQ, c.fingerprint))
  {
    OfferRead(PQ, c.fingerprint);
    PlainNonces(d.resPqId, RES_PQ, nonce, d.serverNonce, EncodeBytes(PQ) + (EncodeVectorHeader(1) + Word64(c.fingerprint)));
  }

  lemma ThreeStrings(a: Bytes, b: Bytes, e: Bytes, rest: Bytes)
    requires |a| < 0x100_0000 && |b| < 0x100_0000 && |e| < 0x100_0000
    ensures SkipStrings(EncodeBytes(a) + (EncodeBytes(b) + (EncodeBytes(e) + rest)), 3) == Some(rest)
  {
    BytesTrip(a, EncodeBytes(b) + (EncodeBytes(e) + rest));
    TwoStrings(b, e, rest);
  }

  lemma TwoStrings(a: Bytes, b: Bytes, rest: Bytes)
    requires |a| < 0x100_0000 && |b| < 0x100_0000
    ensures SkipStrings(EncodeBytes(a) + (EncodeBytes(b) + rest), 2) == Some(rest)
  {
    BytesTrip(a, EncodeBytes(b) + rest);
    BytesTrip(b, rest);
    assert SkipStrings(rest, 0) == Some(rest);
    assert SkipStrings(EncodeBytes(b) + rest, 1) == Some(rest);
  }

  function InnerOf(cl: Client): Inner {
    match cl.kind
    case Temporary(_, expiresIn) => Inner(cl.newNonce, true, expiresIn)
    case _ => Inner(cl.newNonce, false, 0)
  }

  /** The fields of p_q_inner_data after the strings, whatever padding follows. */
  lemma InnerFields(n: Bytes, newNonce: NewNonce, fields: Bytes)
    requires |n| == 32
    ensures
      var s := n + (newNonce + fields);
      |s| >= 64 && s[32..64] == newNonce && s[64..] == fields
  {
  }

  lemma KindRead(k: Kind, padding: Bytes)
    ensures k.InDc? ==> TakeInt32(KindFields(k) + padding).Ok?
    ensures k.Temporary? ==>
      && TakeInt32(KindFields(k) + padding).Ok?
      && TakeInt32(TakeInt32(KindFields(k) + padding).value.rest) == Ok(Got(k.expiresIn, padding))
  {
    match k
    case Permanent =>
    case InDc(dc) => Int32Trip(dc, padding);
    case Temporary(dc, expiresIn) =>
      Associates(EncodeInt32(dc), EncodeInt32(expiresIn), padding);
      Int32Trip(dc, EncodeInt32(expiresIn) + padding);
      Int32Trip(expiresIn, padding);
  }

  lemma InnerShape(cl: Client, r: ResPq, padding: Bytes)
    ensures InnerData(cl, r) + padding ==
            Word32(KindId(cl.kind)) + (EncodeBytes(r.pq) + (EncodeBytes(cl.p) + (EncodeBytes(cl.q) +
              (r.nonce + r.serverNonce + (cl.newNonce + (KindFields(cl.kind) + padding))))))
  {
    var n := r.nonce + r.serverNonce;
    Associates(cl.newNonce, KindFields(cl.kind), padding);
    Associates(n, cl.newNonce + KindFields(cl.kind), padding);
    Associates(EncodeBytes(cl.q), n + (cl.newNonce + KindFields(cl.kind)), padding);
    Associates(EncodeBytes(cl.p), EncodeBytes(cl.q) + (n + (cl.newNonce + KindFields(cl.kind))), padding);
    Associates(EncodeBytes(r.pq), EncodeBytes(cl.p) + (EncodeBytes(cl.q) + (n + (cl.newNonce + KindFields(cl.kind)))), padding);
    Associates(Word32(KindId(cl.kind)),
               EncodeBytes(r.pq) + (EncodeBytes(cl.p) + (EncodeBytes(cl.q) + (n + (cl.newNonce + KindFields(cl.kind))))), padding);
  }

  lemma InnerRead(cl: Client, r: ResPq, padding: Bytes)
    requires |r.pq| < 0x100_0000 && |cl.p| < 0x100_0000 && |cl.q| < 0x100_0000
    ensures DecodeInner(InnerData(cl, r) + padding) == Some(InnerOf(cl))
  {
    var s, id := InnerData(cl, r) + padding, KindId(cl.kind);
    var fields := r.nonce + r.serverNonce + (cl.newNonce + (KindFields(cl.kind) + padding));
    var strings := EncodeBytes(r.pq) + (EncodeBytes(cl.p) + (EncodeBytes(cl.q) + fields));
    InnerShape(cl, r, padding);
    Word32Trip(id, Word32(id));
    assert s[..4] == Word32(id) && s[4..] == strings;
    ThreeStrings(r.pq, cl.p, cl.q, fields);
    InnerFields(r.nonce + r.serverNonce, cl.newNonce, KindFields(cl.kind) + padding);
    KindRead(cl.kind, padding);
  }

  /** The server gets out of RSA_PAD what the client put in. */
  lemma RequestUnpads(c: Crypto, cl: Client, r: ResPq)
    requires IsPermutation(c.cipher) && RsaPadding.Inverts(c.key) && |InnerData(cl, r)| <= RsaPadding.DATA_LIMIT
    requires RsaPadding.Fits(RsaEnv(c), RsaPadded(cl, r), cl.tempKey, c.key)
    ensures Unpad(c, c.key.encrypt(RsaPadding.Attempt(RsaEnv(c), RsaPadded(cl, r), cl.tempKey))) == Some(RsaPadded(cl, r))
  {
    RsaPadding.AttemptUnpads(RsaEnv(c), RsaPadded(cl, r), cl.tempKey);
  }

  lemma RequestRead(c: Crypto, cl: Client, r: ResPq)
    requires FromClient(cl.requestId) && |InnerData(cl, r)| <= RsaPadding.DATA_LIMIT
    requires |cl.p| < 0x100_0000 && |cl.q| < 0x100_0000
    ensures
      var data := RequestData(c, cl, r);
      && Classify(Plain(cl.requestId, data)) == Real(data) && !IsReqPq(data)
      && DecodeReqDh(data) == Some(c.key.encrypt(RsaPadding.Attempt(RsaEnv(c), RsaPadded(cl, r), cl.tempKey)))
  {
    var encrypted := c.key.encrypt(RsaPadding.Attempt(RsaEnv(c), RsaPadded(cl, r), cl.tempKey));
    var last := Word64(r.fingerprint) + EncodeBytes(encrypted);
    var fields := EncodeBytes(cl.p) + (EncodeBytes(cl.q) + last);
    SizeOfBytes(cl.p);
    SizeOfBytes(cl.q);
    SizeOfBytes(encrypted);
    NoncesRead(REQ_DH_PARAMS, r.nonce, r.serverNonce, fields);
    AfterNonces(r.nonce, r.serverNonce, fields);
    FrameIsReal(cl.requestId, RequestData(c, cl, r));
    TwoStrings(cl.p, cl.q, last);
    LongTrip(r.fingerprint, EncodeBytes(encrypted));
    assert EncodeBytes(encrypted) + [] == EncodeBytes(encrypted);
    BytesTrip(encrypted, []);
  }

  /** An answer under the temporary key is opened by the other side. */
  lemma AnswerOpens(c: Crypto, newNonce: NewNonce, serverNonce: Nonce, answer: Bytes, padding: nat -> byte)
    requires IsPermutation(c.cipher) && NoCollision(c.sha1, answer, Drawn(padding, answer))
    ensures Opened(c, newNonce, serverNonce, Answered(c, newNonce, serverNonce, answer, padding)) == Ok(answer)
    ensures |Answered(c, newNonce, serverNonce, answer, padding)| == 20 + |answer| + PadLength(answer) <= |answer| + 35
  {
    var key, iv := TempKey(c.sha1, newNonce, serverNonce), TempIv(c.sha1, newNonce, serverNonce);
    AnswerTrip(c.cipher, c.sha1, key, iv, answer, Drawn(padding, answer));
    PaddedLenIsNearest(|answer| + 20);
  }

  lemma PublicValueSize(exponent: Bytes)
    ensures |PublicValue(exponent)| <= 256
  {
    PrimeValue();
    PrimeBound();
    var v := Pow(Nat([Octet(DiffieHellman.GENERATOR)]), Nat(exponent)) % Nat(FixedDhPrime());
    Bignum.PaddedMinimal(v, 256);
  }

  lemma GroupRead(g: Int32, prime: Bytes, ga: Bytes, time: Int32)
    requires |prime| <= 256 && |ga| <= 256
    ensures
      var s := EncodeInt32(g) + (EncodeBytes(prime) + (EncodeBytes(ga) + EncodeInt32(time)));
      ReadGroup(s) == Some(DhParams(g, prime, ga, time)) && |s| < 600
  {
    SizeOfBytes(prime);
    SizeOfBytes(ga);
    Int32Trip(g, EncodeBytes(prime) + (EncodeBytes(ga) + EncodeInt32(time)));
    BytesTrip(prime, EncodeBytes(ga) + EncodeInt32(time));
    BytesTrip(ga, EncodeInt32(time));
    Int32Trip(time, []);
    assert EncodeInt32(time) + [] == EncodeInt32(time);
  }

  lemma InnerWithGroup(d: Draws, nonce: Nonce, prime: Bytes, ga: Bytes, data: Bytes)
    requires |prime| <= 256 && |ga| <= 256
    requires data == Nonces(SERVER_DH_INNER, nonce, d.serverNonce,
               EncodeInt32(DiffieHellman.GENERATOR) + (EncodeBytes(prime) + (EncodeBytes(ga) + EncodeInt32(d.serverTime))))
    ensures ReadDhInner(data, nonce, d.serverNonce) == Some(DhParams(DiffieHellman.GENERATOR, prime, ga, d.serverTime)) && |data| < 1000
  {
    var fields := EncodeInt32(DiffieHellman.GENERATOR) + (EncodeBytes(prime) + (EncodeBytes(ga) + EncodeInt32(d.serverTime)));
    GroupRead(DiffieHellman.GENERATOR, prime, ga, d.serverTime);
    GroupAfterNonces(nonce, d.serverNonce, fields, data, DhParams(DiffieHellman.GENERATOR, prime, ga, d.serverTime));
  }

  lemma GroupAfterNonces(nonce: Nonce, serverNonce: Nonce, fields: Bytes, data: Bytes, dh: DhParams)
    requires data == Nonces(SERVER_DH_INNER, nonce, serverNonce, fields) && ReadGroup(fields) == Some(dh)
    ensures ReadDhInner(data, nonce, serverNonce) == Some(dh) && |data| == 36 + |fields|
  {
    NoncesRead(SERVER_DH_INNER, nonce, serverNonce, fields);
  }

  lemma DhInnerRead(d: Draws, nonce: Nonce)
    ensures ReadDhInner(DhInner(d, nonce), nonce, d.serverNonce) == Some(ServerParams(d)) && |DhInner(d, nonce)| < 1000
  {
    PublicValueSize(d.a);
    InnerWithGroup(d, nonce, FixedDhPrime(), PublicValue(d.a), DhInner(d, nonce));
  }

  /** A message that carries an answer under the temporary key. */
  lemma SealedFieldReads(id: UInt32, nonce: Nonce, serverNonce: Nonce, encrypted: Bytes)
    requires |encrypted| < 0x10_0000
    ensures
      var data := Nonces(id, nonce, serverNonce, EncodeBytes(encrypted));
      && ReadNonces(data, id) == Some(Fields(nonce, serverNonce, EncodeBytes(encrypted)))
      && TakeId(data, id) == Ok(nonce + (serverNonce + EncodeBytes(encrypted)))
      && ReadWord32(data[..4]) == id && 36 <= |data| < 0x20_0000
      && TakeBytes(EncodeBytes(encrypted)) == Ok(Got(encrypted, []))
  {
    SizeOfBytes(encrypted);
    NoncesRead(id, nonce, serverNonce, EncodeBytes(encrypted));
    assert EncodeBytes(encrypted) + [] == EncodeBytes(encrypted);
    BytesTrip(encrypted, []);
  }

  lemma OpensParams(c: Crypto, newNonce: NewNonce, nonce: Nonce, serverNonce: Nonce, s: Bytes, encrypted: Bytes, answer: Bytes)
    requires TakeBytes(s) == Ok(Got(encrypted, [])) && Opened(c, newNonce, serverNonce, encrypted) == Ok(answer)
    ensures OpenParams(c, newNonce, nonce, serverNonce, s) == ReadDhInner(answer, nonce, serverNonce)
  {
  }

  lemma ParamsOpened(c: Crypto, cl: Client, r: ResPq, messageId: Int64, encrypted: Bytes, answer: Bytes)
    requires |encrypted| < 0x10_0000 && Opened(c, cl.newNonce, r.serverNonce, encrypted) == Ok(answer)
    ensures ReadParams(c, cl, r, Plain(messageId, Nonces(SERVER_DH_PARAMS_OK, r.nonce, r.serverNonce, EncodeBytes(encrypted)))) ==
            ReadDhInner(answer, r.nonce, r.serverNonce)
  {
    SealedFieldReads(SERVER_DH_PARAMS_OK, r.nonce, r.serverNonce, encrypted);
    SizeOfBytes(encrypted);
    PlainNonces(messageId, SERVER_DH_PARAMS_OK, r.nonce, r.serverNonce, EncodeBytes(encrypted));
    OpensParams(c, cl.newNonce, r.nonce, r.serverNonce, EncodeBytes(encrypted), encrypted, answer);
  }

  lemma ParamsRead(c: Crypto, d: Draws, cl: Client)
    requires IsPermutation(c.cipher) && NoCollision(c.sha1, DhInner(d, cl.nonce), Drawn(d.padding, DhInner(d, cl.nonce)))
    ensures ReadParams(c, cl, ServerResPq(c, d, cl), Plain(d.paramsId, ParamsData(c, d, cl.nonce, cl.newNonce))) == Some(ServerParams(d))
  {
    var answer := DhInner(d, cl.nonce);
    DhInnerRead(d, cl.nonce);
    AnswerOpens(c, cl.newNonce, d.serverNonce, answer, d.padding);
    ParamsOpened(c, cl, ServerResPq(c, d, cl), d.paramsId, Answered(c, cl.newNonce, d.serverNonce, answer, d.padding), answer);
  }

  lemma PublicRead(retryId: Int64, gb: Bytes)
    requires |gb| <= 256
    ensures DecodePublic(Word64(retryId) + EncodeBytes(gb)) == Some(gb) && |Word64(retryId) + EncodeBytes(gb)| < 600
  {
    SizeOfBytes(gb);
    LongTrip(retryId, EncodeBytes(gb));
    assert EncodeBytes(gb) + [] == EncodeBytes(gb);
    BytesTrip(gb, []);
  }

  lemma PublicAfterNonces(nonce: Nonce, serverNonce: Nonce, fields: Bytes, gb: Bytes, data: Bytes)
    requires data == Nonces(CLIENT_DH_INNER, nonce, serverNonce, fields) && |fields| < 600 && DecodePublic(fields) == Some(gb)
    ensures DecodeClientInner(data) == Some(gb) && |data| < 1000
  {
    NoncesRead(CLIENT_DH_INNER, nonce, serverNonce, fields);
    AfterNonces(nonce, serverNonce, fields);
  }

  lemma ClientInnerRead(cl: Client, r: ResPq, dh: DhParams)
    requires |ClientPublic(cl, dh)| <= 256
    ensures DecodeClientInner(ClientInner(cl, r, dh)) == Some(ClientPublic(cl, dh)) && |ClientInner(cl, r, dh)| < 1000
  {
    var gb := ClientPublic(cl, dh);
    PublicRead(cl.retryId, gb);
    PublicAfterNonces(r.nonce, r.serverNonce, Word64(cl.retryId) + EncodeBytes(gb), gb, ClientInner(cl, r, dh));
  }

  lemma AnswerFrame(messageId: Int64, nonce: Nonce, serverNonce: Nonce, encrypted: Bytes)
    requires FromClient(messageId) && |encrypted| < 0x10_0000
    ensures
      var data := Nonces(SET_CLIENT_DH_PARAMS, nonce, serverNonce, EncodeBytes(encrypted));
      Classify(Plain(messageId, data)) == Real(data) && DecodeSetClient(data) == Some(encrypted)
  {
    SealedFieldReads(SET_CLIENT_DH_PARAMS, nonce, serverNonce, encrypted);
    AfterNonces(nonce, serverNonce, EncodeBytes(encrypted));
    FrameIsReal(messageId, Nonces(SET_CLIENT_DH_PARAMS, nonce, serverNonce, EncodeBytes(encrypted)));
  }

  lemma AnswerRead(c: Crypto, cl: Client, r: ResPq, dh: DhParams)
    requires IsPermutation(c.cipher) && FromClient(cl.answerId) && |ClientPublic(cl, dh)| <= 256
    requires NoCollision(c.sha1, ClientInner(cl, r, dh), Drawn(cl.padding, ClientInner(cl, r, dh)))
    ensures
      var data := AnswerData(c, cl, r, dh);
      var encrypted := Answered(c, cl.newNonce, r.serverNonce, ClientInner(cl, r, dh), cl.padding);
      && Classify(Plain(cl.answerId, data)) == Real(data) && DecodeSetClient(data) == Some(encrypted)
      && Opened(c, cl.newNonce, r.serverNonce, encrypted) == Ok(ClientInner(cl, r, dh))
  {
    var answer := ClientInner(cl, r, dh);
    ClientInnerRead(cl, r, dh);
    AnswerOpens(c, cl.newNonce, r.serverNonce, answer, cl.padding);
    AnswerFrame(cl.answerId, r.nonce, r.serverNonce, Answered(c, cl.newNonce, r.serverNonce, answer, cl.padding));
  }

  lemma SameKey(a: Bytes, b: Bytes, ga: Bytes, gb: Bytes)
    requires ga == PublicValue(a) && gb == PublicValue(b)
    ensures KeyFrom(gb, a).Some? && KeyFrom(ga, b) == KeyFrom(gb, a)
  {
    PrimeValue();
    DiffieHellman.KeysAgree(a, b, ga, gb);
  }

  lemma PublicOfClient(d: Draws, cl: Client)
    ensures ClientPublic(cl, ServerParams(d)) == PublicValue(cl.b) && |PublicValue(cl.b)| <= 256
    ensures ClientKey(cl, ServerParams(d)) == KeyFrom(PublicValue(d.a), cl.b)
  {
    PrimeValue();
    PublicValueSize(cl.b);
  }

  /** Both sides calculate one key. */
  lemma OneKey(c: Crypto, d: Draws, cl: Client, r: ResPq, encrypted: Bytes)
    requires Opened(c, cl.newNonce, d.serverNonce, encrypted) == Ok(ClientInner(cl, r, ServerParams(d)))
    ensures ClientKey(cl, ServerParams(d)).Some? && AgreeOn(c, d, cl.newNonce, encrypted) == ClientKey(cl, ServerParams(d))
  {
    PublicOfClient(d, cl);
    ClientInnerRead(cl, r, ServerParams(d));
    SameKey(d.a, cl.b, PublicValue(d.a), PublicValue(cl.b));
  }

  // ---- The whole exchange ----

  /** What the two sides have to be given: an honest client, and no unlucky hash. */
  ghost predicate Fair(c: Crypto, d: Draws, cl: Client) {
    var r, dh := ServerResPq(c, d, cl), ServerParams(d);
    && IsPermutation(c.cipher) && RsaPadding.Inverts(c.key)
    && FromClient(cl.helloId) && FromClient(cl.requestId) && FromClient(cl.answerId)
    && |cl.p| < 0x100_0000 && |cl.q| < 0x100_0000 && |InnerData(cl, r)| <= RsaPadding.DATA_LIMIT
    && RsaPadding.Fits(RsaEnv(c), RsaPadded(cl, r), cl.tempKey, c.key)
    && ExpiresAt(InnerOf(cl), d.now).Some?
    && NoCollision(c.sha1, DhInner(d, cl.nonce), Drawn(d.padding, DhInner(d, cl.nonce)))
    && NoCollision(c.sha1, ClientInner(cl, r, dh), Drawn(cl.padding, ClientInner(cl, r, dh)))
  }

  /** The three frames of the client, each built from what it has read so far. */
  function ClientFrames(c: Crypto, cl: Client, r: ResPq, dh: DhParams): (f: seq<Bytes>)
    requires |InnerData(cl, r)| <= RsaPadding.DATA_LIMIT
    ensures |f| == 3
  {
    [Plain(cl.helloId, HelloData(cl)), Plain(cl.requestId, RequestData(c, cl, r)), Plain(cl.answerId, AnswerData(c, cl, r, dh))]
  }

  lemma NextIsReal(frame: Bytes, data: Bytes, rest: seq<Bytes>)
    requires Classify(frame) == Real(data)
    ensures NextReal([frame] + rest) == Received(data, frame, rest)
  {
    assert ([frame] + rest)[1..] == rest;
  }

  lemma LastMessage(env: Env, nonce: Nonce, inner: Inner, expiresAt: int, frame: Bytes, data: Bytes, encrypted: Bytes, key: AuthKey, rest: seq<Bytes>)
    requires Classify(frame) == Real(data) && DecodeSetClient(data) == Some(encrypted) && env.agree(inner.newNonce, encrypted) == Some(key)
    ensures AwaitClient(env, nonce, inner, expiresAt, [frame] + rest) ==
            Done(Agreed(key, env.salt(inner.newNonce), expiresAt), [env.genOk(nonce, inner.newNonce, key)], [frame], rest)
  {
    NextIsReal(frame, data, rest);
  }

  lemma SecondMessage(env: Env, nonce: Nonce, frame: Bytes, data: Bytes, encrypted: Bytes, rest: seq<Bytes>)
    requires Classify(frame) == Real(data) && !IsReqPq(data) && DecodeReqDh(data) == Some(encrypted)
    ensures AwaitParams(env, nonce, [frame] + rest) == Earlier([env.resPq(nonce)], [frame], AfterParams(env, nonce, encrypted, rest))
  {
    NextIsReal(frame, data, rest);
  }

  lemma FirstMessage(env: Env, frame: Bytes, data: Bytes, nonce: Nonce, rest: seq<Bytes>)
    requires Classify(frame) == Real(data) && DecodeReqPq(data) == Some(nonce)
    ensures Run(env, [frame] + rest) == Earlier([], [frame], AwaitParams(env, nonce, rest))
  {
    NextIsReal(frame, data, rest);
  }

  lemma ParamsSent(env: Env, nonce: Nonce, encrypted: Bytes, plain: Bytes, inner: Inner, expiresAt: int, frames: seq<Bytes>)
    requires env.unpad(encrypted) == Some(plain) && DecodeInner(plain) == Some(inner) && ExpiresAt(inner, env.now) == Some(expiresAt)
    ensures AfterParams(env, nonce, encrypted, frames) ==
            Earlier([env.paramsOk(nonce, inner.newNonce)], [], AwaitClient(env, nonce, inner, expiresAt, frames))
  {
  }

  lemma ChainedDone(e: Exchange, e1: Exchange, e2: Exchange, o: Outcome, w: Bytes, w': Bytes, w'': Bytes, f1: Bytes, f2: Bytes, rest: seq<Bytes>)
    requires e == Earlier([w], [f1], e1) && e1 == Earlier([w'], [], e2) && e2 == Done(o, [w''], [f2], rest)
    ensures e == Done(o, [w, w', w''], [f1, f2], rest)
  {
  }

  lemma FirstOfThree(e: Exchange, o: Outcome, w: seq<Bytes>, f: seq<Bytes>, rest: seq<Bytes>)
    requires |f| == 3 && e == Done(o, w, [f[1], f[2]], rest)
    ensures Earlier([], [f[0]], e) == Done(o, w, f, rest)
  {
    assert f == [f[0]] + [f[1], f[2]] && [] + w == w;
  }

  /** What the server makes of the client's three messages. */
  datatype Taken = Taken(hello: Bytes, request: Bytes, encrypted: Bytes, plain: Bytes, inner: Inner, expiresAt: int, answer: Bytes, data: Bytes, key: AuthKey)

  predicate TakesHello(f: Bytes, nonce: Nonce, t: Taken) { Classify(f) == Real(t.hello) && DecodeReqPq(t.hello) == Some(nonce) }

  predicate TakesRequest(env: Env, f: Bytes, t: Taken) {
    && Classify(f) == Real(t.request) && !IsReqPq(t.request) && DecodeReqDh(t.request) == Some(t.encrypted)
    && env.unpad(t.encrypted) == Some(t.plain) && DecodeInner(t.plain) == Some(t.inner) && ExpiresAt(t.inner, env.now) == Some(t.expiresAt)
  }

  predicate TakesAnswer(env: Env, f: Bytes, t: Taken) {
    Classify(f) == Real(t.answer) && DecodeSetClient(t.answer) == Some(t.data) && env.agree(t.inner.newNonce, t.data) == Some(t.key)
  }

  predicate Takes(env: Env, f: seq<Bytes>, nonce: Nonce, t: Taken) {
    |f| == 3 && TakesHello(f[0], nonce, t) && TakesRequest(env, f[1], t) && TakesAnswer(env, f[2], t)
  }

  lemma FromRequest(env: Env, f: seq<Bytes>, rest: seq<Bytes>, nonce: Nonce, t: Taken)
    requires Takes(env, f, nonce, t)
    ensures AwaitParams(env, nonce, [f[1]] + ([f[2]] + rest)) ==
            Done(Agreed(t.key, env.salt(t.inner.newNonce), t.expiresAt),
                 [env.resPq(nonce), env.paramsOk(nonce, t.inner.newNonce), env.genOk(nonce, t.inner.newNonce, t.key)], [f[1], f[2]], rest)
  {
    var last := [f[2]] + rest;
    SecondMessage(env, nonce, f[1], t.request, t.encrypted, last);
    ParamsSent(env, nonce, t.encrypted, t.plain, t.inner, t.expiresAt, last);
    LastMessage(env, nonce, t.inner, t.expiresAt, f[2], t.answer, t.data, t.key, rest);
    ChainedDone(AwaitParams(env, nonce, [f[1]] + last), AfterParams(env, nonce, t.encrypted, last),
                AwaitClient(env, nonce, t.inner, t.expiresAt, last), Agreed(t.key, env.salt(t.inner.newNonce), t.expiresAt),
                env.resPq(nonce), env.paramsOk(nonce, t.inner.newNonce), env.genOk(nonce, t.inner.newNonce, t.key), f[1], f[2], rest);
  }

  /** An exchange over three messages that are taken like that. */
  lemma ThreeMessages(env: Env, f: seq<Bytes>, rest: seq<Bytes>, nonce: Nonce, t: Taken)
    requires Takes(env, f, nonce, t)
    ensures Run(env, f + rest) ==
            Done(Agreed(t.key, env.salt(t.inner.newNonce), t.expiresAt),
                 [env.resPq(nonce), env.paramsOk(nonce, t.inner.newNonce), env.genOk(nonce, t.inner.newNonce, t.key)], f, rest)
  {
    var later := [f[1]] + ([f[2]] + rest);
    FromRequest(env, f, rest, nonce, t);
    FirstMessage(env, f[0], t.hello, nonce, later);
    FirstOfThree(AwaitParams(env, nonce, later), Agreed(t.key, env.salt(t.inner.newNonce), t.expiresAt),
                 [env.resPq(nonce), env.paramsOk(nonce, t.inner.newNonce), env.genOk(nonce, t.inner.newNonce, t.key)], f, rest);
    ThreeAndRest(f, rest);
  }

  lemma ThreeAndRest(f: seq<Bytes>, rest: seq<Bytes>)
    requires |f| == 3
    ensures f + rest == [f[0]] + ([f[1]] + ([f[2]] + rest))
  {
  }

  /** What the server makes of the honest client's messages. */
  function HonestTaken(c: Crypto, d: Draws, cl: Client): Taken
    requires |InnerData(cl, ServerResPq(c, d, cl))| <= RsaPadding.DATA_LIMIT && ExpiresAt(InnerOf(cl), d.now).Some?
    requires ClientKey(cl, ServerParams(d)).Some?
  {
    var r, dh := ServerResPq(c, d, cl), ServerParams(d);
    Taken(HelloData(cl), RequestData(c, cl, r), c.key.encrypt(RsaPadding.Attempt(RsaEnv(c), RsaPadded(cl, r), cl.tempKey)),
          RsaPadded(cl, r), InnerOf(cl), ExpiresAt(InnerOf(cl), d.now).value,
          AnswerData(c, cl, r, dh), Answered(c, cl.newNonce, d.serverNonce, ClientInner(cl, r, dh), cl.padding), ClientKey(cl, dh).value)
  }

  lemma RequestTaken(c: Crypto, d: Draws, cl: Client)
    requires Fair(c, d, cl)
    ensures
      var r := ServerResPq(c, d, cl);
      var data, sealed := RequestData(c, cl, r), c.key.encrypt(RsaPadding.Attempt(RsaEnv(c), RsaPadded(cl, r), cl.tempKey));
      && Classify(Plain(cl.requestId, data)) == Real(data) && !IsReqPq(data) && DecodeReqDh(data) == Some(sealed)
      && Unpad(c, sealed) == Some(RsaPadded(cl, r)) && DecodeInner(RsaPadded(cl, r)) == Some(InnerOf(cl))
  {
    var r := ServerResPq(c, d, cl);
    RequestRead(c, cl, r);
    RequestUnpads(c, cl, r);
    var padded, n := RsaPadded(cl, r), |InnerData(cl, r)|;
    assert padded == InnerData(cl, r) + padded[n..];
    InnerRead(cl, r, padded[n..]);
  }

  lemma AnswerTaken(c: Crypto, d: Draws, cl: Client)
    requires Fair(c, d, cl)
    ensures
      var r, dh := ServerResPq(c, d, cl), ServerParams(d);
      var data, sealed := AnswerData(c, cl, r, dh), Answered(c, cl.newNonce, d.serverNonce, ClientInner(cl, r, dh), cl.padding);
      && Classify(Plain(cl.answerId, data)) == Real(data) && DecodeSetClient(data) == Some(sealed)
      && ClientKey(cl, dh).Some? && AgreeOn(c, d, cl.newNonce, sealed) == ClientKey(cl, dh)
  {
    var r, dh := ServerResPq(c, d, cl), ServerParams(d);
    PublicOfClient(d, cl);
    AnswerRead(c, cl, r, dh);
    OneKey(c, d, cl, r, Answered(c, cl.newNonce, d.serverNonce, ClientInner(cl, r, dh), cl.padding));
  }

  lemma EnvIs(c: Crypto, d: Draws, newNonce: NewNonce, encrypted: Bytes, data: Bytes)
    ensures
      var env := ServerEnv(c, d);
      env.now == d.now && env.unpad(encrypted) == Unpad(c, encrypted) && env.agree(newNonce, data) == AgreeOn(c, d, newNonce, data)
  {
  }

  lemma HonestHello(cl: Client, f: Bytes, t: Taken)
    requires FromClient(cl.helloId) && f == Plain(cl.helloId, HelloData(cl)) && t.hello == HelloData(cl)
    ensures TakesHello(f, cl.nonce, t)
  {
    HelloRead(cl);
  }

  lemma HonestRequest(env: Env, c: Crypto, d: Draws, cl: Client, f: Bytes, t: Taken)
    requires Fair(c, d, cl) && f == Plain(cl.requestId, RequestData(c, cl, ServerResPq(c, d, cl)))
    requires t.request == RequestData(c, cl, ServerResPq(c, d, cl)) && t.plain == RsaPadded(cl, ServerResPq(c, d, cl))
    requires t.encrypted == c.key.encrypt(RsaPadding.Attempt(RsaEnv(c), t.plain, cl.tempKey))
    requires t.inner == InnerOf(cl) && env.now == d.now && ExpiresAt(t.inner, d.now) == Some(t.expiresAt)
    requires env.unpad(t.encrypted) == Unpad(c, t.encrypted)
    ensures TakesRequest(env, f, t)
  {
    RequestTaken(c, d, cl);
  }

  lemma HonestAnswer(env: Env, c: Crypto, d: Draws, cl: Client, f: Bytes, t: Taken)
    requires Fair(c, d, cl) && f == Plain(cl.answerId, t.answer) && t.answer == AnswerData(c, cl, ServerResPq(c, d, cl), ServerParams(d))
    requires t.data == Answered(c, cl.newNonce, d.serverNonce, ClientInner(cl, ServerResPq(c, d, cl), ServerParams(d)), cl.padding)
    requires t.inner.newNonce == cl.newNonce && ClientKey(cl, ServerParams(d)) == Some(t.key)
    requires env.agree(cl.newNonce, t.data) == AgreeOn(c, d, cl.newNonce, t.data)
    ensures TakesAnswer(env, f, t)
  {
    AnswerTaken(c, d, cl);
  }

  lemma HelloIsTaken(c: Crypto, d: Draws, cl: Client)
    requires Fair(c, d, cl) && ClientKey(cl, ServerParams(d)).Some?
    ensures TakesHello(ClientFrames(c, cl, ServerResPq(c, d, cl), ServerParams(d))[0], cl.nonce, HonestTaken(c, d, cl))
  {
    HonestHello(cl, ClientFrames(c, cl, ServerResPq(c, d, cl), ServerParams(d))[0], HonestTaken(c, d, cl));
  }

  lemma RequestIsTaken(c: Crypto, d: Draws, cl: Client)
    requires Fair(c, d, cl) && ClientKey(cl, ServerParams(d)).Some?
    ensures TakesRequest(ServerEnv(c, d), ClientFrames(c, cl, ServerResPq(c, d, cl), ServerParams(d))[1], HonestTaken(c, d, cl))
  {
    var t := HonestTaken(c, d, cl);
    EnvIs(c, d, cl.newNonce, t.encrypted, t.data);
    HonestRequest(ServerEnv(c, d), c, d, cl, ClientFrames(c, cl, ServerResPq(c, d, cl), ServerParams(d))[1], t);
  }

  lemma AnswerIsTaken(c: Crypto, d: Draws, cl: Client)
    requires Fair(c, d, cl) && ClientKey(cl, ServerParams(d)).Some?
    ensures TakesAnswer(ServerEnv(c, d), ClientFrames(c, cl, ServerResPq(c, d, cl), ServerParams(d))[2], HonestTaken(c, d, cl))
  {
    var t := HonestTaken(c, d, cl);
    EnvIs(c, d, cl.newNonce, t.encrypted, t.data);
    HonestAnswer(ServerEnv(c, d), c, d, cl, ClientFrames(c, cl, ServerResPq(c, d, cl), ServerParams(d))[2], t);
  }

  lemma HonestIsTaken(c: Crypto, d: Draws, cl: Client)
    requires Fair(c, d, cl)
    ensures ClientKey(cl, ServerParams(d)).Some?
    ensures Takes(ServerEnv(c, d), ClientFrames(c, cl, ServerResPq(c, d, cl), ServerParams(d)), cl.nonce, HonestTaken(c, d, cl))
  {
    AnswerTaken(c, d, cl);
    HelloIsTaken(c, d, cl);
    RequestIsTaken(c, d, cl);
    AnswerIsTaken(c, d, cl);
  }

  lemma GenOkProves(c: Crypto, d: Draws, cl: Client, key: AuthKey)
    ensures Proves(c, cl, ServerResPq(c, d, cl), key, Plain(d.genOkId, GenOkData(c, d, cl.nonce, cl.newNonce, key)))
  {
    var hash := NonceHash(c.sha1, cl.newNonce, key);
    PlainNonces(d.genOkId, DH_GEN_OK, cl.nonce, d.serverNonce, hash);
    assert hash[..16] == hash;
  }

  /**
   An honest client's exchange succeeds. It reads in each of the server's messages what the server put
   there; the server ends with the key and the salt the client calculates, and the expiry it asked
   for; and dh_gen_ok proves that to the client. What follows its three frames is left for whoever
   comes next.
   */
  lemma HonestClientAgrees(c: Crypto, d: Draws, cl: Client, rest: seq<Bytes>)
    requires Fair(c, d, cl)
    ensures
      var env, r, dh := ServerEnv(c, d), ServerResPq(c, d, cl), ServerParams(d);
      var f, key := ClientFrames(c, cl, r, dh), ClientKey(cl, dh);
      && ReadResPq(env.resPq(cl.nonce)) == Some(r)
      && ReadParams(c, cl, r, env.paramsOk(cl.nonce, cl.newNonce)) == Some(dh)
      && key.Some?
      && Proves(c, cl, r, key.value, env.genOk(cl.nonce, cl.newNonce, key.value))
      && Run(env, f + rest) ==
         Done(Agreed(key.value, Salt(cl.newNonce, r.serverNonce), ExpiresAt(InnerOf(cl), d.now).value),
              [env.resPq(cl.nonce), env.paramsOk(cl.nonce, cl.newNonce), env.genOk(cl.nonce, cl.newNonce, key.value)], f, rest)
  {
    ResPqRead(c, d, cl.nonce);
    ParamsRead(c, d, cl);
    HonestIsTaken(c, d, cl);
    GenOkProves(c, d, cl, ClientKey(cl, ServerParams(d)).value);
    ThreeMessages(ServerEnv(c, d), ClientFrames(c, cl, ServerResPq(c, d, cl), ServerParams(d)), rest, cl.nonce, HonestTaken(c, d, cl));
  }

  /** An exchange that ends with a key does so with acknowledgements in between. */
  lemma DoneWithAcks(env: Env, frames: seq<Bytes>, o: Outcome)
    requires var e := Run(env, WithoutAcks(frames)); e.Done? && e.outcome == o
    ensures var e := Run(env, frames); e.Done? && e.outcome == o
  {
    RunIgnoresAcks(env, frames);
  }

  lemma HonestOutcome(c: Crypto, d: Draws, cl: Client, rest: seq<Bytes>)
    requires Fair(c, d, cl)
    ensures ClientKey(cl, ServerParams(d)).Some?
    ensures
      var e := Run(ServerEnv(c, d), ClientFrames(c, cl, ServerResPq(c, d, cl), ServerParams(d)) + rest);
      && e.Done?
      && e.outcome == Agreed(ClientKey(cl, ServerParams(d)).value, Salt(cl.newNonce, d.serverNonce), ExpiresAt(InnerOf(cl), d.now).value)
  {
    HonestClientAgrees(c, d, cl, rest);
  }

  /** And so it does with acknowledgements sent in between, anywhere. */
  lemma AcknowledgingClientAgrees(c: Crypto, d: Draws, cl: Client, frames: seq<Bytes>, rest: seq<Bytes>)
    requires Fair(c, d, cl)
    requires WithoutAcks(frames) == ClientFrames(c, cl, ServerResPq(c, d, cl), ServerParams(d)) + rest
    ensures ClientKey(cl, ServerParams(d)).Some?
    ensures
      var e := Run(ServerEnv(c, d), frames);
      && e.Done?
      && e.outcome == Agreed(ClientKey(cl, ServerParams(d)).value, Salt(cl.newNonce, d.serverNonce), ExpiresAt(InnerOf(cl), d.now).value)
  {
    HonestOutcome(c, d, cl, rest);
    DoneWithAcks(ServerEnv(c, d), frames,
                 Agreed(ClientKey(cl, ServerParams(d)).value, Salt(cl.newNonce, d.serverNonce), ExpiresAt(InnerOf(cl), d.now).value));
  }
}
