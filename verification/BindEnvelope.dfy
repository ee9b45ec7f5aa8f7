/**
 The envelope in which a client proves that it holds a permanent key: the old key schedule, no
 salt or session, and a fixed inner structure.
 */
module BindEnvelope {
  import opened Wrappers
  import opened ByteStrings
  import opened Ige
  import opened TlBuffers
  import opened MessageCipher

  const BIND_INNER: UInt32 := 0x75A3F765

  datatype Inner = Inner(nonce: Int64, tempKeyId: Int64, permKeyId: Int64, tempSessionId: Int64, expiresAt: Int32)

  datatype BindError = ZeroKey | Invalid

  function MessageKeyV1(env: Env, plaintext: Bytes): Block { env.sha1(plaintext)[4..] }

  function KeysV1(env: Env, key: AuthKey, msgKey: Block): KeyIv {
    var a := env.sha1(msgKey + key[..32]);
    var b := env.sha1(key[32..48] + msgKey + key[48..64]);
    var c := env.sha1(key[64..96] + msgKey);
    var d := env.sha1(msgKey + key[96..128]);
    KeyIv(a[..8] + b[8..20] + c[4..16], a[8..20] + b[..8] + c[16..20] + d[..8])
  }

  function EncodeFields(id: UInt32, i: Inner): (r: Bytes)
    ensures |r| == 40
  {
    Word32(id) + Word64(i.nonce) + Word64(i.tempKeyId) + Word64(i.permKeyId) + Word64(i.tempSessionId) + EncodeInt32(i.expiresAt)
  }

  function EncodeInner(i: Inner): (r: Bytes)
    ensures |r| == 40
  {
    EncodeFields(BIND_INNER, i)
  }

  /** Random prefix, message id, a sequence number of zero, and the length of the body. */
  function BindHeader(prefix: Block, msgId: Int64, length: nat): (r: Bytes)
    ensures |r| == 32
  {
    prefix + Word64(msgId) + EncodeInt32(0) + EncodeInt32(WrapInt32(length))
  }

  function PadLength(n: nat): nat { if n % 16 == 0 then 0 else 16 - n % 16 }

  lemma PadAligns(n: nat)
    ensures 0 <= PadLength(n) < 16 && (n + PadLength(n)) % 16 == 0
  {
  }

  /** The message key is taken before padding is added. */
  function SealedV1(env: Env, key: AuthKey, plaintext: Bytes, padding: Bytes): EncryptedMessage
    requires |padding| == PadLength(|plaintext|)
  {
    PadAligns(|plaintext|);
    var msgKey := MessageKeyV1(env, plaintext);
    var k := KeysV1(env, key, msgKey);
    EncryptedMessage(AuthKeyId(env, key), msgKey, Encrypted(Encryptor(env.cipher, k.key), k.iv[..16], k.iv[16..], plaintext + padding))
  }

  predicate IsZero(key: AuthKey) { forall i | 0 <= i < 256 :: key[i] == 0 }

  function Plaintext(prefix: Block, msgId: Int64, inner: Inner): (r: Bytes)
    ensures |r| == 72
  {
    BindHeader(prefix, msgId, 40) + EncodeInner(inner)
  }

  method PutInner(payload: TLBuffer, id: UInt32, inner: Inner)
    requires payload.buf == []
    modifies payload
    ensures payload.buf == EncodeFields(id, inner)
  {
    payload.PutUint32(id);
    payload.PutLong(inner.nonce);
    payload.PutLong(inner.tempKeyId);
    payload.PutLong(inner.permKeyId);
    payload.PutLong(inner.tempSessionId);
    payload.PutInt32(inner.expiresAt);
  }

  method PutHeader(plaintext: TLBuffer, prefix: Block, msgId: Int64, length: nat)
    requires plaintext.buf == []
    modifies plaintext
    ensures plaintext.buf == BindHeader(prefix, msgId, length)
  {
    plaintext.Put(prefix);
    plaintext.PutLong(msgId);
    plaintext.PutInt32(0);
    plaintext.PutInt32(WrapInt32(length));
  }

  /** padding is what the random source fills the last block with. */
  method Seal(env: Env, key: AuthKey, plaintext: TLBuffer, padding: Bytes) returns (r: EncryptedMessage)
    requires |padding| == PadLength(|plaintext.buf|)
    modifies plaintext
    ensures r == SealedV1(env, key, old(plaintext.buf), padding)
  {
    var msgKey := MessageKeyV1(env, plaintext.buf);
    PadAligns(|plaintext.buf|);
    assert |plaintext.buf| % 16 == 0 ==> plaintext.buf + padding == plaintext.buf;
    if |plaintext.buf| % 16 != 0 { plaintext.Put(padding); }
    var k := KeysV1(env, key, msgKey);
    var encrypted := IgeEncrypt(env.cipher, k.key, k.iv, plaintext.buf);
    r := EncryptedMessage(AuthKeyId(env, key), msgKey, encrypted.value);
  }

  method EncryptBindMessage(env: Env, key: AuthKey, msgId: Int64, inner: Inner, prefix: Block, padding: Bytes)
    returns (r: Result<Bytes, BindError>)
    requires |padding| == PadLength(72)
    ensures IsZero(key) ==> r == Err(ZeroKey)
    ensures !IsZero(key) ==> r == Ok(Encode(SealedV1(env, key, Plaintext(prefix, msgId, inner), padding)))
  {
    if forall i | 0 <= i < 256 :: key[i] == 0 { return Err(ZeroKey); }
    var payload := new TLBuffer([]);
    PutInner(payload, BIND_INNER, inner);
    var plaintext := new TLBuffer([]);
    PutHeader(plaintext, prefix, msgId, |payload.buf|);
    plaintext.Put(payload.buf);
    var m := Seal(env, key, plaintext, padding);
    return Ok(Encode(m));
  }

  // ---- Opening ----

  function DecodeInner(s: Bytes): Result<Inner, BindError> {
    if |s| < 40 || ReadWord32(s[..4]) != BIND_INNER then Err(Invalid)
    else Ok(Inner(ReadWord64(s[4..12]), ReadWord64(s[12..20]), ReadWord64(s[20..28]), ReadWord64(s[28..36]), AsInt32(ReadWord32(s[36..40]))))
  }

  /** The body is the part the length covers; the message key has to be that of everything up to its end. */
  function ParseBind(env: Env, msgKey: Block, plaintext: Bytes): Result<Inner, BindError> {
    if |plaintext| < 32 then Err(Invalid)
    else
      var length := AsInt32(ReadWord32(plaintext[28..32]));
      if length <= 0 || 32 + length > |plaintext| then Err(Invalid)
      else if msgKey != MessageKeyV1(env, plaintext[..32 + length]) then Err(Invalid)
      else DecodeInner(plaintext[32..32 + length])
  }

  function OpenedV1(env: Env, key: AuthKey, m: EncryptedMessage): Result<Inner, BindError> {
    if m.authKeyId != AuthKeyId(env, key) || m.data == [] || |m.data| % 16 != 0 then Err(Invalid)
    else
      var k := KeysV1(env, key, m.msgKey);
      ParseBind(env, m.msgKey, Decrypted(Decryptor(env.cipher, k.key), k.iv[..16], k.iv[16..], m.data))
  }

  function Received(env: Env, key: AuthKey, wire: Bytes): Result<Inner, BindError> {
    var m := Decode(wire);
    if m.Err? then Err(Invalid) else OpenedV1(env, key, m.value)
  }

  method DecodeBody(body: Bytes) returns (r: Result<Inner, BindError>)
    ensures r == DecodeInner(body)
  {
    var b := new TLBuffer(body);
    var id := b.PeekID();
    if id.Err? || id.value != BIND_INNER { return Err(Invalid); }
    var consumed := b.ConsumeID(BIND_INNER);
    var nonce := b.Long();
    if nonce.Err? { return Err(Invalid); }
    assert b.buf == body[12..] && body[4..][..8] == body[4..12];
    var tempKeyId := b.Long();
    if tempKeyId.Err? { return Err(Invalid); }
    assert b.buf == body[20..] && body[12..][..8] == body[12..20];
    var permKeyId := b.Long();
    if permKeyId.Err? { return Err(Invalid); }
    assert b.buf == body[28..] && body[20..][..8] == body[20..28];
    var tempSessionId := b.Long();
    if tempSessionId.Err? { return Err(Invalid); }
    assert b.buf == body[36..] && body[28..][..8] == body[28..36];
    var expiresAt := b.Int32();
    if expiresAt.Err? { return Err(Invalid); }
    assert body[36..][..4] == body[36..40];
    return Ok(Inner(nonce.value, tempKeyId.value, permKeyId.value, tempSessionId.value, expiresAt.value));
  }

  method ParseEnvelope(env: Env, msgKey: Block, plaintext: Bytes) returns (r: Result<Inner, BindError>)
    ensures r == ParseBind(env, msgKey, plaintext)
  {
    if |plaintext| < 32 { return Err(Invalid); }
    var b := new TLBuffer(plaintext);
    var prefix := b.ConsumeN(16);
    assert b.buf == plaintext[16..];
    var msgId := b.Long();
    assert b.buf == plaintext[24..];
    var seqNo := b.Int32();
    assert b.buf == plaintext[28..] && plaintext[28..][..4] == plaintext[28..32];
    var length := b.Int32();
    if length.value <= 0 { return Err(Invalid); }
    var bodyEnd := 32 + length.value;
    if bodyEnd > |plaintext| { return Err(Invalid); }
    if msgKey != MessageKeyV1(env, plaintext[..bodyEnd]) { return Err(Invalid); }
    r := DecodeBody(plaintext[32..bodyEnd]);
  }

  method DecryptBindAuthKeyInner(env: Env, key: AuthKey, wire: Bytes) returns (r: Result<Inner, BindError>)
    ensures r == Received(env, key, wire)
  {
    var b := new TLBuffer(wire);
    var decoded := DecodeInPlace(b);
    if decoded.Err? { return Err(Invalid); }
    var m := decoded.value;
    if m.authKeyId != AuthKeyId(env, key) || m.data == [] || |m.data| % 16 != 0 { return Err(Invalid); }
    var k := KeysV1(env, key, m.msgKey);
    var plaintext := IgeDecrypt(env.cipher, k.key, k.iv, m.data);
    r := ParseEnvelope(env, m.msgKey, plaintext.value);
  }

  // ---- Round trip ----

  /** Where the parts of a concatenation are. */
  lemma FirstParts(a: Bytes, b: Bytes, c: Bytes, rest: Bytes, s: Bytes)
    requires s == a + b + c + rest
    ensures s[..|a|] == a && s[|a|..|a| + |b|] == b && s[|a| + |b|..|a| + |b| + |c|] == c && s[|a| + |b| + |c|..] == rest
  {
  }

  lemma Later(s: Bytes, k: nat, i: nat, j: nat)
    requires k <= i <= j <= |s|
    ensures s[k..][i - k..j - k] == s[i..j]
  {
  }

  lemma FieldSlices(id: UInt32, i: Inner)
    ensures
      var s := EncodeFields(id, i);
      && s[..4] == Word32(id) && s[4..12] == Word64(i.nonce) && s[12..20] == Word64(i.tempKeyId)
      && s[20..28] == Word64(i.permKeyId) && s[28..36] == Word64(i.tempSessionId) && s[36..40] == EncodeInt32(i.expiresAt)
  {
    var s := EncodeFields(id, i);
    var last := Word64(i.permKeyId) + Word64(i.tempSessionId) + EncodeInt32(i.expiresAt);
    assert s == Word32(id) + Word64(i.nonce) + Word64(i.tempKeyId) + last;
    FirstParts(Word32(id), Word64(i.nonce), Word64(i.tempKeyId), last, s);
    assert last == last + [];
    FirstParts(Word64(i.permKeyId), Word64(i.tempSessionId), EncodeInt32(i.expiresAt), [], last);
    Later(s, 20, 20, 28);
    Later(s, 20, 28, 36);
    Later(s, 20, 36, 40);
  }

  lemma FieldsRead(id: UInt32, i: Inner)
    ensures
      var s := EncodeFields(id, i);
      && ReadWord32(s[..4]) == id && ReadWord64(s[4..12]) == i.nonce && ReadWord64(s[12..20]) == i.tempKeyId
      && ReadWord64(s[20..28]) == i.permKeyId && ReadWord64(s[28..36]) == i.tempSessionId
      && AsInt32(ReadWord32(s[36..40])) == i.expiresAt
  {
    var s := EncodeFields(id, i);
    FieldSlices(id, i);
    Word32Trip(id, s[..4]);
    Word64Trip(i.nonce, s[4..12]);
    Word64Trip(i.tempKeyId, s[4..12]);
    Word64Trip(i.permKeyId, s[4..12]);
    Word64Trip(i.tempSessionId, s[4..12]);
    Word32Trip(AsUInt32(i.expiresAt), s[..4]);
  }

  lemma InnerTrip(i: Inner)
    ensures DecodeInner(EncodeInner(i)) == Ok(i)
  {
    FieldsRead(BIND_INNER, i);
  }

  lemma LengthOfBody(prefix: Block, msgId: Int64, length: nat, rest: Bytes)
    requires length < 0x8000_0000
    ensures AsInt32(ReadWord32((BindHeader(prefix, msgId, length) + rest)[28..32])) == length
  {
    assert (BindHeader(prefix, msgId, length) + rest)[28..32] == EncodeInt32(WrapInt32(length));
    SmallCount(length);
    Word32Trip(AsUInt32(length), EncodeInt32(length));
  }

  lemma ParseBody(env: Env, header: Bytes, body: Bytes, padding: Bytes)
    requires |header| == 32 && 0 < |body| && AsInt32(ReadWord32((header + (body + padding))[28..32])) == |body|
    ensures ParseBind(env, MessageKeyV1(env, header + body), header + body + padding) == DecodeInner(body)
  {
    var s := header + body + padding;
    assert s == header + (body + padding);
    assert s[..32 + |body|] == header + body && s[32..32 + |body|] == body;
  }

  lemma ParseBindTrip(env: Env, prefix: Block, msgId: Int64, inner: Inner, padding: Bytes)
    ensures
      var plaintext := Plaintext(prefix, msgId, inner);
      ParseBind(env, MessageKeyV1(env, plaintext), plaintext + padding) == Ok(inner)
  {
    var body := EncodeInner(inner);
    LengthOfBody(prefix, msgId, |body|, body + padding);
    ParseBody(env, BindHeader(prefix, msgId, |body|), body, padding);
    InnerTrip(inner);
  }

  lemma OpensV1(env: Env, key: AuthKey, plaintext: Bytes, padding: Bytes)
    requires IsPermutation(env.cipher) && |padding| == PadLength(|plaintext|) && plaintext != []
    ensures OpenedV1(env, key, SealedV1(env, key, plaintext, padding)) == ParseBind(env, MessageKeyV1(env, plaintext), plaintext + padding)
  {
    PadAligns(|plaintext|);
    var k := KeysV1(env, key, MessageKeyV1(env, plaintext));
    DecryptUndoesEncrypt(Encryptor(env.cipher, k.key), Decryptor(env.cipher, k.key), k.iv[..16], k.iv[16..], plaintext + padding);
  }

  lemma Unwraps(env: Env, key: AuthKey, plaintext: Bytes, padding: Bytes)
    requires IsPermutation(env.cipher) && |padding| == PadLength(|plaintext|) && plaintext != []
    ensures Received(env, key, Encode(SealedV1(env, key, plaintext, padding))) == ParseBind(env, MessageKeyV1(env, plaintext), plaintext + padding)
  {
    EnvelopeTrip(SealedV1(env, key, plaintext, padding));
    OpensV1(env, key, plaintext, padding);
  }

  /** What was wrapped under a permanent key comes out under it, for any random bytes. */
  lemma BindTrip(env: Env, key: AuthKey, msgId: Int64, inner: Inner, prefix: Block, padding: Bytes)
    requires IsPermutation(env.cipher) && |padding| == PadLength(72)
    ensures Received(env, key, Encode(SealedV1(env, key, Plaintext(prefix, msgId, inner), padding))) == Ok(inner)
  {
    Unwraps(env, key, Plaintext(prefix, msgId, inner), padding);
    ParseBindTrip(env, prefix, msgId, inner, padding);
  }

  // ---- Nothing else comes out ----

  /**
   wire is the envelope of a header, a body whose length the header gives and that begins with the
   encoding of inner, and padding, under the message key of header and body.
   */
  ghost predicate IsEnvelope(env: Env, key: AuthKey, wire: Bytes, inner: Inner, header: Bytes, body: Bytes, padding: Bytes) {
    var msgKey := MessageKeyV1(env, header + body);
    var k := KeysV1(env, key, msgKey);
    && |header| == 32 && AsInt32(ReadWord32(header[28..32])) == |body| && EncodeInner(inner) <= body
    && |header + body + padding| % 16 == 0
    && wire == Encode(EncryptedMessage(
                 AuthKeyId(env, key), msgKey, Encrypted(Encryptor(env.cipher, k.key), k.iv[..16], k.iv[16..], header + body + padding)))
  }

  /** The fields are read from these places. */
  predicate ReadFrom(s: Bytes, i: Inner) {
    && |s| >= 40 && ReadWord32(s[..4]) == BIND_INNER
    && i.nonce == ReadWord64(s[4..12]) && i.tempKeyId == ReadWord64(s[12..20]) && i.permKeyId == ReadWord64(s[20..28])
    && i.tempSessionId == ReadWord64(s[28..36]) && i.expiresAt == AsInt32(ReadWord32(s[36..40]))
  }

  lemma FieldsBack(s: Bytes, inner: Inner)
    requires DecodeInner(s) == Ok(inner)
    ensures EncodeInner(inner) <= s
  {
    assert ReadFrom(s, inner);
    ReadBack(inner, s, s[..4], s[4..12], s[12..20], s[20..28], s[28..36], s[36..40]);
    SixParts(s);
  }

  lemma ReadBack(i: Inner, s: Bytes, a: Bytes, b: Bytes, c: Bytes, d: Bytes, e: Bytes, f: Bytes)
    requires |a| == |f| == 4 && |b| == |c| == |d| == |e| == 8
    requires ReadWord32(a) == BIND_INNER && i.nonce == ReadWord64(b) && i.tempKeyId == ReadWord64(c)
    requires i.permKeyId == ReadWord64(d) && i.tempSessionId == ReadWord64(e) && i.expiresAt == AsInt32(ReadWord32(f))
    ensures EncodeInner(i) == a + b + c + d + e + f
  {
    IdBack(a);
    LongBack(i.nonce, b);
    LongBack(i.tempKeyId, c);
    LongBack(i.permKeyId, d);
    LongBack(i.tempSessionId, e);
    Word32Back(f);
    EncodedParts(i, a, b, c, d, e, f);
  }

  lemma EncodedParts(i: Inner, a: Bytes, b: Bytes, c: Bytes, d: Bytes, e: Bytes, f: Bytes)
    requires a == Word32(BIND_INNER) && b == Word64(i.nonce) && c == Word64(i.tempKeyId)
    requires d == Word64(i.permKeyId) && e == Word64(i.tempSessionId) && f == EncodeInt32(i.expiresAt)
    ensures EncodeInner(i) == a + b + c + d + e + f
  {
  }

  lemma IdBack(s: Bytes)
    requires |s| == 4 && ReadWord32(s) == BIND_INNER
    ensures Word32(BIND_INNER) == s
  {
    Word32Trip(0, s);
  }

  lemma LongBack(v: Int64, s: Bytes)
    requires |s| == 8 && v == ReadWord64(s)
    ensures Word64(v) == s
  {
    Word64Trip(0, s);
  }

  lemma SixParts(s: Bytes)
    requires |s| >= 40
    ensures s[..4] + s[4..12] + s[12..20] + s[20..28] + s[28..36] + s[36..40] == s[..40] <= s
  {
  }

  lemma FieldsFront(inner: Inner, body: Bytes)
    requires EncodeInner(inner) <= body
    ensures DecodeInner(body) == Ok(inner)
  {
    var s := EncodeInner(inner);
    FieldsRead(BIND_INNER, inner);
    assert body[..4] == s[..4] && body[4..12] == s[4..12] && body[12..20] == s[12..20];
    assert body[20..28] == s[20..28] && body[28..36] == s[28..36] && body[36..40] == s[36..40];
  }

  lemma BodyParts(plaintext: Bytes, n: nat) returns (header: Bytes, body: Bytes, padding: Bytes)
    requires 32 + n <= |plaintext|
    ensures header == plaintext[..32] && body == plaintext[32..32 + n] && header + body == plaintext[..32 + n]
    ensures header + body + padding == plaintext && header[28..32] == plaintext[28..32]
  {
    header, body, padding := plaintext[..32], plaintext[32..32 + n], plaintext[32 + n..];
  }

  lemma EncryptsBack(cipher: Cipher, k: KeyIv, data: Bytes, all: Bytes)
    requires IsPermutation(cipher) && |data| % 16 == 0 && all == Decrypted(Decryptor(cipher, k.key), k.iv[..16], k.iv[16..], data)
    ensures |all| % 16 == 0 && data == Encrypted(Encryptor(cipher, k.key), k.iv[..16], k.iv[16..], all)
  {
    EncryptUndoesDecrypt(Encryptor(cipher, k.key), Decryptor(cipher, k.key), k.iv[..16], k.iv[16..], data);
  }

  lemma ReceivedIsEnvelope(env: Env, key: AuthKey, wire: Bytes, inner: Inner) returns (header: Bytes, body: Bytes, padding: Bytes)
    requires IsPermutation(env.cipher) && Received(env, key, wire) == Ok(inner)
    ensures IsEnvelope(env, key, wire, inner, header, body, padding)
  {
    var m := Decode(wire).value;
    EnvelopeBack(wire);
    var k := KeysV1(env, key, m.msgKey);
    var plaintext := Decrypted(Decryptor(env.cipher, k.key), k.iv[..16], k.iv[16..], m.data);
    EncryptsBack(env.cipher, k, m.data, plaintext);
    header, body, padding := BodyParts(plaintext, AsInt32(ReadWord32(plaintext[28..32])));
    FieldsBack(body, inner);
  }

  lemma EnvelopeIsReceived(env: Env, key: AuthKey, wire: Bytes, inner: Inner, header: Bytes, body: Bytes, padding: Bytes)
    requires IsPermutation(env.cipher) && IsEnvelope(env, key, wire, inner, header, body, padding)
    ensures Received(env, key, wire) == Ok(inner)
  {
    var msgKey, all := MessageKeyV1(env, header + body), header + body + padding;
    var k := KeysV1(env, key, msgKey);
    var m := EncryptedMessage(AuthKeyId(env, key), msgKey, Encrypted(Encryptor(env.cipher, k.key), k.iv[..16], k.iv[16..], all));
    EnvelopeTrip(m);
    OpensTo(env, key, m, all);
    ParseEnvelopeBody(env, header, body, padding, inner);
    ReceivedAs(env, key, wire, m, inner);
  }

  lemma ReceivedAs(env: Env, key: AuthKey, wire: Bytes, m: EncryptedMessage, inner: Inner)
    requires Decode(wire) == Ok(m) && OpenedV1(env, key, m) == Ok(inner)
    ensures Received(env, key, wire) == Ok(inner)
  {
  }

  lemma OpensTo(env: Env, key: AuthKey, m: EncryptedMessage, all: Bytes)
    requires IsPermutation(env.cipher) && |all| % 16 == 0 && all != [] && m.authKeyId == AuthKeyId(env, key)
    requires var k := KeysV1(env, key, m.msgKey); m.data == Encrypted(Encryptor(env.cipher, k.key), k.iv[..16], k.iv[16..], all)
    ensures OpenedV1(env, key, m) == ParseBind(env, m.msgKey, all)
  {
    DecryptsTo(env.cipher, KeysV1(env, key, m.msgKey), m.data, all);
    OpensDecrypted(env, key, m, all);
  }

  lemma DecryptsTo(cipher: Cipher, k: KeyIv, data: Bytes, all: Bytes)
    requires IsPermutation(cipher) && |all| % 16 == 0 && data == Encrypted(Encryptor(cipher, k.key), k.iv[..16], k.iv[16..], all)
    ensures Decrypted(Decryptor(cipher, k.key), k.iv[..16], k.iv[16..], data) == all
  {
    DecryptUndoesEncrypt(Encryptor(cipher, k.key), Decryptor(cipher, k.key), k.iv[..16], k.iv[16..], all);
  }

  lemma OpensDecrypted(env: Env, key: AuthKey, m: EncryptedMessage, all: Bytes)
    requires m.authKeyId == AuthKeyId(env, key) && m.data != [] && |m.data| % 16 == 0
    requires var k := KeysV1(env, key, m.msgKey); Decrypted(Decryptor(env.cipher, k.key), k.iv[..16], k.iv[16..], m.data) == all
    ensures OpenedV1(env, key, m) == ParseBind(env, m.msgKey, all)
  {
  }

  lemma ParseEnvelopeBody(env: Env, header: Bytes, body: Bytes, padding: Bytes, inner: Inner)
    requires |header| == 32 && AsInt32(ReadWord32(header[28..32])) == |body| && EncodeInner(inner) <= body
    ensures ParseBind(env, MessageKeyV1(env, header + body), header + body + padding) == Ok(inner)
  {
    assert (header + (body + padding))[28..32] == header[28..32];
    ParseBody(env, header, body, padding);
    FieldsFront(inner, body);
  }

  /** Exactly the envelopes with the permanent key's id and the right message key give their inner structure. */
  lemma OnlyEnvelopesCount(env: Env, key: AuthKey, wire: Bytes, inner: Inner)
    requires IsPermutation(env.cipher)
    ensures Received(env, key, wire) == Ok(inner) <==>
            exists header, body, padding :: IsEnvelope(env, key, wire, inner, header, body, padding)
  {
    if Received(env, key, wire) == Ok(inner) { var header, body, padding := ReceivedIsEnvelope(env, key, wire, inner); }
    forall header, body, padding | IsEnvelope(env, key, wire, inner, header, body, padding) ensures Received(env, key, wire) == Ok(inner) {
      EnvelopeIsReceived(env, key, wire, inner, header, body, padding);
    }
  }

  /** Which bytes of the auth key, and of which hashes, make the old schedule's keys. */
  lemma OldKeysByPosition(env: Env, key: AuthKey, msgKey: Block, plaintext: Bytes)
    ensures
      var k := KeysV1(env, key, msgKey);
      var a, b := env.sha1(msgKey + key[..32]), env.sha1(key[32..48] + msgKey + key[48..64]);
      var c, d := env.sha1(key[64..96] + msgKey), env.sha1(msgKey + key[96..128]);
      && k.key[..8] == a[..8] && k.key[8..20] == b[8..] && k.key[20..] == c[4..16]
      && k.iv[..12] == a[8..] && k.iv[12..20] == b[..8] && k.iv[20..24] == c[16..] && k.iv[24..] == d[..8]
      && (forall i | 0 <= i < 16 :: MessageKeyV1(env, plaintext)[i] == env.sha1(plaintext)[4 + i])
  {
  }
}
