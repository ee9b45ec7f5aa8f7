/**
 Encryption of ordinary messages under an auth key. Hashes and the block cipher are
 parameters; random bytes are inputs.
 */
module MessageCipher {
  import opened Wrappers
  import opened ByteStrings
  import opened Ige
  import opened TlBuffers

  type AuthKey = s: Bytes | |s| == 256 witness Zeros(256)

  datatype Env = Env(cipher: Cipher, sha1: Bytes -> Sha1Digest, sha256: Bytes -> Digest)

  datatype Side = Client | Server

  datatype CipherError =
    | UnknownKeyId | Misaligned | MsgKeyInvalid | TooShort | NegativeLength | LengthNotDivisible | LengthTooBig | PaddingTooBig

  datatype EncryptedMessage = EncryptedMessage(authKeyId: Bytes, msgKey: Block, data: Bytes)

  datatype MessageData = MessageData(salt: Int64, sessionId: Int64, messageId: Int64, seqNo: Int32, data: Bytes)

  const MAX_PADDING: int := 1024

  function Opposite(s: Side): Side { if s.Client? then Server else Client }

  function SideOffset(s: Side): nat { if s.Client? then 0 else 8 }

  function AuthKeyId(env: Env, key: AuthKey): (r: Bytes)
    ensures |r| == 8
  {
    env.sha1(key)[12..]
  }

  function MessageKey(env: Env, key: AuthKey, padded: Bytes, side: Side): Block {
    var x := SideOffset(side);
    env.sha256(key[88 + x..120 + x] + padded)[8..24]
  }

  function ComposeKeyOrIv(a: Digest, b: Digest): Digest { a[..8] + b[8..24] + a[24..] }

  datatype KeyIv = KeyIv(key: Digest, iv: Digest)

  function DeriveKeys(env: Env, key: AuthKey, msgKey: Block, side: Side): KeyIv {
    var x := SideOffset(side);
    var a := env.sha256(msgKey + key[x..x + 36]);
    var b := env.sha256(key[40 + x..76 + x] + msgKey);
    KeyIv(ComposeKeyOrIv(a, b), ComposeKeyOrIv(b, a))
  }

  // ---- Padding ----

  /** The remainder as the machine computes it: it has the sign of the dividend. */
  function MachineRem(a: int, b: nat): int
    requires b > 0
  {
    if a >= 0 then a % b else -((-a) % b)
  }

  /** The fewest bytes from 12 on that fill the last block, and a random number of further blocks. */
  method CountPadding(length: Int32, randByte: byte) returns (padding: int)
    ensures (length + padding) % 16 == 0
    ensures 12 <= padding - 16 * (randByte as int % 16) < 28
    ensures 12 <= padding <= 267
    ensures padding == Padding(length, randByte)
  {
    PaddingOf(length, randByte);
    RemainderAligns(length);
    padding := MachineRem(16 - MachineRem(length, 16), 16);
    if padding < 12 { padding := padding + 16; }
    padding := padding + (randByte as int % 16) * 16;
  }

  function Padding(length: Int32, randByte: byte): int {
    var base := MachineRem(16 - MachineRem(length, 16), 16);
    (if base < 12 then base + 16 else base) + (randByte as int % 16) * 16
  }

  lemma MultipleOf16(q: int)
    ensures (16 * q) % 16 == 0
  {
  }

  lemma RemainderAligns(n: int)
    ensures
      var base := MachineRem(16 - MachineRem(n, 16), 16);
      0 <= base < 16 && (n + base) % 16 == 0
  {
    if n >= 0 {
      var q, r := n / 16, n % 16;
      assert n == 16 * q + r;
      MultipleOf16(q);
      MultipleOf16(q + 1);
    } else {
      var q, r := (-n) / 16, (-n) % 16;
      assert n + r == 16 * -q;
      MultipleOf16(-q);
    }
  }

  lemma SixteenSame(n: nat, p: int)
    requires (WrapInt32(n) + p) % 16 == 0
    ensures (n + p) % 16 == 0
  {
    var q := n / 0x1_0000_0000;
    assert n == 0x1_0000_0000 * q + n % 0x1_0000_0000;
  }

  /** From 12 to 267 bytes, to a whole number of blocks, even when the length wraps its 32 bits. */
  lemma PaddingAligns(n: nat, randByte: byte)
    ensures 12 <= Padding(WrapInt32(n), randByte) <= 267
    ensures (n + Padding(WrapInt32(n), randByte)) % 16 == 0
  {
    PaddingOf(WrapInt32(n), randByte);
    SixteenSame(n, Padding(WrapInt32(n), randByte));
  }

  lemma ExtraBlocks(n: int, base: int, k: nat)
    requires 0 <= base < 16 && (n + base) % 16 == 0 && k < 16
    ensures
      var p := (if base < 12 then base + 16 else base) + k * 16;
      12 <= p <= 267 && (n + p) % 16 == 0
  {
  }

  lemma PaddingOf(n: Int32, randByte: byte)
    ensures 12 <= Padding(n, randByte) <= 267 && (n + Padding(n, randByte)) % 16 == 0
  {
    RemainderAligns(n);
    ExtraBlocks(n, MachineRem(16 - MachineRem(n, 16), 16), randByte as int % 16);
  }

  // ---- Sealing ----

  function Header(salt: Int64, sessionId: Int64, messageId: Int64, seqNo: Int32, length: nat): (r: Bytes)
    ensures |r| == 32
  {
    Word64(salt) + Word64(sessionId) + Word64(messageId) + EncodeInt32(seqNo) + EncodeInt32(WrapInt32(length))
  }

  function Sealed(env: Env, key: AuthKey, padded: Bytes, side: Side): EncryptedMessage
    requires |padded| % 16 == 0
  {
    var msgKey := MessageKey(env, key, padded, side);
    var k := DeriveKeys(env, key, msgKey, side);
    EncryptedMessage(AuthKeyId(env, key), msgKey, Encrypted(Encryptor(env.cipher, k.key), k.iv[..16], k.iv[16..], padded))
  }

  method EncryptMessage(env: Env, key: AuthKey, salt: Int64, sessionId: Int64, messageId: Int64, seqNo: Int32, data: Bytes,
                        side: Side, randByte: byte, padding: Bytes) returns (r: EncryptedMessage)
    requires |padding| == Padding(WrapInt32(32 + |data|), randByte)
    ensures (32 + |data| + |padding|) % 16 == 0
    ensures r == Sealed(env, key, Header(salt, sessionId, messageId, seqNo, |data|) + data + padding, side)
  {
    var plaintext := new TLBuffer([]);
    plaintext.PutLong(salt);
    plaintext.PutLong(sessionId);
    plaintext.PutLong(messageId);
    plaintext.PutInt32(seqNo);
    plaintext.PutInt32(WrapInt32(|data|));
    assert plaintext.buf == Header(salt, sessionId, messageId, seqNo, |data|);
    plaintext.Put(data);
    var count := CountPadding(WrapInt32(|plaintext.buf|), randByte);
    PaddingAligns(32 + |data|, randByte);
    plaintext.Put(padding[..count]);
    assert padding[..count] == padding;
    var msgKey := MessageKey(env, key, plaintext.buf, side);
    var k := DeriveKeys(env, key, msgKey, side);
    var encrypted := IgeEncrypt(env.cipher, k.key, k.iv, plaintext.buf);
    r := EncryptedMessage(AuthKeyId(env, key), msgKey, encrypted.value);
  }

  // ---- Opening ----

  function Parse(plaintext: Bytes): Result<MessageData, CipherError> {
    if |plaintext| < 32 then Err(TooShort)
    else
      var length := AsInt32(ReadWord32(plaintext[28..32]));
      var remaining := WrapInt32(|plaintext| - 32);
      if length < 0 then Err(NegativeLength)
      else if length % 4 != 0 then Err(LengthNotDivisible)
      else if length > remaining then Err(LengthTooBig)
      else if remaining - length > MAX_PADDING then Err(PaddingTooBig)
      else
        RemainingBound(|plaintext| - 32);
        Ok(MessageData(ReadWord64(plaintext[..8]), ReadWord64(plaintext[8..16]), ReadWord64(plaintext[16..24]),
                       AsInt32(ReadWord32(plaintext[24..28])), plaintext[32..32 + length]))
  }

  lemma RemainingBound(n: nat)
    ensures WrapInt32(n) <= n
  {
  }

  function Opened(env: Env, key: AuthKey, m: EncryptedMessage, decryptAs: Side): Result<MessageData, CipherError> {
    if m.authKeyId != AuthKeyId(env, key) then Err(UnknownKeyId)
    else if |m.data| % 16 != 0 then Err(Misaligned)
    else
      var sender := Opposite(decryptAs);
      var k := DeriveKeys(env, key, m.msgKey, sender);
      var plaintext := Decrypted(Decryptor(env.cipher, k.key), k.iv[..16], k.iv[16..], m.data);
      if MessageKey(env, key, plaintext, sender) != m.msgKey then Err(MsgKeyInvalid) else Parse(plaintext)
  }

  method ParsePlaintext(plaintext: Bytes) returns (r: Result<MessageData, CipherError>)
    ensures r == Parse(plaintext)
  {
    if |plaintext| < 32 { return Err(TooShort); }
    var b := new TLBuffer(plaintext);
    var salt := b.Long();
    assert b.buf == plaintext[8..];
    var sessionId := b.Long();
    assert b.buf == plaintext[16..] && plaintext[8..][..8] == plaintext[8..16];
    var messageId := b.Long();
    assert b.buf == plaintext[24..] && plaintext[16..][..8] == plaintext[16..24];
    var seqNo := b.Int32();
    assert b.buf == plaintext[28..] && plaintext[24..][..4] == plaintext[24..28];
    var length := b.Int32();
    assert b.buf == plaintext[32..] && plaintext[28..][..4] == plaintext[28..32];
    var remaining := WrapInt32(|b.buf|);
    if length.value < 0 { return Err(NegativeLength); }
    if length.value % 4 != 0 { return Err(LengthNotDivisible); }
    if length.value > remaining { return Err(LengthTooBig); }
    if remaining - length.value > MAX_PADDING { return Err(PaddingTooBig); }
    RemainingBound(|b.buf|);
    assert b.buf[..length.value] == plaintext[32..32 + length.value];
    return Ok(MessageData(salt.value, sessionId.value, messageId.value, seqNo.value, b.buf[..length.value]));
  }

  method DecryptMessage(env: Env, key: AuthKey, m: EncryptedMessage, decryptAs: Side) returns (r: Result<MessageData, CipherError>)
    ensures r == Opened(env, key, m, decryptAs)
  {
    if m.authKeyId != AuthKeyId(env, key) { return Err(UnknownKeyId); }
    if |m.data| % 16 != 0 { return Err(Misaligned); }
    var sender := Opposite(decryptAs);
    var k := DeriveKeys(env, key, m.msgKey, sender);
    var plaintext := IgeDecrypt(env.cipher, k.key, k.iv, m.data);
    if MessageKey(env, key, plaintext.value, sender) != m.msgKey { return Err(MsgKeyInvalid); }
    r := ParsePlaintext(plaintext.value);
  }

  // ---- Round trip ----

  /** The fields of a header, wherever the bytes after it end. */
  lemma HeaderFields(salt: Int64, sessionId: Int64, messageId: Int64, seqNo: Int32, length: nat, rest: Bytes)
    ensures
      var s := Header(salt, sessionId, messageId, seqNo, length) + rest;
      && ReadWord64(s[..8]) == salt && ReadWord64(s[8..16]) == sessionId && ReadWord64(s[16..24]) == messageId
      && AsInt32(ReadWord32(s[24..28])) == seqNo && AsInt32(ReadWord32(s[28..32])) == WrapInt32(length) && s[32..] == rest
  {
    var s := Header(salt, sessionId, messageId, seqNo, length) + rest;
    var size := WrapInt32(length);
    assert s[..8] == Word64(salt) && s[8..16] == Word64(sessionId) && s[16..24] == Word64(messageId);
    assert s[24..28] == EncodeInt32(seqNo) && s[28..32] == EncodeInt32(size);
    Word64Trip(salt, s[..8]);
    Word64Trip(sessionId, s[..8]);
    Word64Trip(messageId, s[..8]);
    Word32Trip(AsUInt32(seqNo), s[24..28]);
    Word32Trip(AsUInt32(size), s[24..28]);
  }

  lemma Opens(env: Env, key: AuthKey, padded: Bytes, side: Side)
    requires IsPermutation(env.cipher) && |padded| % 16 == 0
    ensures Opened(env, key, Sealed(env, key, padded, side), Opposite(side)) == Parse(padded)
  {
    var k := DeriveKeys(env, key, MessageKey(env, key, padded, side), side);
    DecryptUndoesEncrypt(Encryptor(env.cipher, k.key), Decryptor(env.cipher, k.key), k.iv[..16], k.iv[16..], padded);
  }

  lemma WrapCases(n: nat)
    ensures WrapInt32(n) == n <==> n < 0x8000_0000
    ensures 0x8000_0000 <= n < 0x1_0000_0000 ==> WrapInt32(n) < 0
  {
  }

  lemma ParseTrip(salt: Int64, sessionId: Int64, messageId: Int64, seqNo: Int32, data: Bytes, padding: Bytes)
    requires |padding| <= 1024
    ensures
      var r := Parse(Header(salt, sessionId, messageId, seqNo, |data|) + data + padding);
      r == Ok(MessageData(salt, sessionId, messageId, seqNo, data)) <==> |data| % 4 == 0 && |data| + |padding| < 0x8000_0000
  {
    var header := Header(salt, sessionId, messageId, seqNo, |data|);
    var s := header + data + padding;
    assert s == header + (data + padding);
    HeaderFields(salt, sessionId, messageId, seqNo, |data|, data + padding);
    assert s[32..32 + |data|] == data;
    ParsesWhen(s, |data|, |padding|);
  }

  /** A length that is whole words parses, unless it or what follows the header leaves 32 bits. */
  lemma ParsesWhen(s: Bytes, n: nat, p: nat)
    requires |s| == 32 + n + p && p <= 1024 && AsInt32(ReadWord32(s[28..32])) == WrapInt32(n)
    ensures Parse(s).Ok? && |Parse(s).value.data| == n <==> n % 4 == 0 && n + p < 0x8000_0000
    ensures n % 4 == 0 && n + p < 0x8000_0000 ==>
      Parse(s) == Ok(MessageData(ReadWord64(s[..8]), ReadWord64(s[8..16]), ReadWord64(s[16..24]), AsInt32(ReadWord32(s[24..28])), s[32..32 + n]))
  {
    WrapCases(n);
    WrapCases(n + p);
    if Parse(s).Ok? { assert |Parse(s).value.data| == WrapInt32(n); }
  }

  /**
   The opposite side recovers every field and the data exactly when the data is whole words and
   its length with the padding stays within 32 signed bits, for any random bytes.
   */
  lemma MessageTrip(env: Env, key: AuthKey, salt: Int64, sessionId: Int64, messageId: Int64, seqNo: Int32, data: Bytes,
                    side: Side, randByte: byte, padding: Bytes)
    requires IsPermutation(env.cipher) && |padding| == Padding(WrapInt32(32 + |data|), randByte)
    ensures
      var padded := Header(salt, sessionId, messageId, seqNo, |data|) + data + padding;
      && |padded| % 16 == 0
      && var r := Opened(env, key, Sealed(env, key, padded, side), Opposite(side));
      r == Ok(MessageData(salt, sessionId, messageId, seqNo, data)) <==> |data| % 4 == 0 && |data| + |padding| < 0x8000_0000
  {
    PaddingAligns(32 + |data|, randByte);
    Opens(env, key, Header(salt, sessionId, messageId, seqNo, |data|) + data + padding, side);
    ParseTrip(salt, sessionId, messageId, seqNo, data, padding);
  }

  // ---- Nothing else opens ----

  /** m is what the side sends for this message with some padding. */
  ghost predicate IsSealing(env: Env, key: AuthKey, m: EncryptedMessage, side: Side, d: MessageData, padding: Bytes) {
    var padded := Header(d.salt, d.sessionId, d.messageId, d.seqNo, |d.data|) + d.data + padding;
    |padding| <= 1024 && |d.data| % 4 == 0 && |padded| % 16 == 0 && m == Sealed(env, key, padded, side)
  }

  lemma FourFields(s: Bytes)
    requires |s| == 32
    ensures s == s[..8] + s[8..16] + s[16..24] + s[24..28] + s[28..32]
  {
  }

  lemma Word32Back(s: Bytes)
    requires |s| == 4
    ensures EncodeInt32(AsInt32(ReadWord32(s))) == s
  {
    Word32Trip(0, s);
  }

  lemma HeaderBack(s: Bytes, length: nat)
    requires |s| == 32 && AsInt32(ReadWord32(s[28..32])) == length
    ensures
      Header(ReadWord64(s[..8]), ReadWord64(s[8..16]), ReadWord64(s[16..24]), AsInt32(ReadWord32(s[24..28])), length) == s
  {
    FourFields(s);
    Word64Trip(0, s[..8]);
    Word64Trip(0, s[8..16]);
    Word64Trip(0, s[16..24]);
    Word32Back(s[24..28]);
    Word32Back(s[28..32]);
    WrapCases(length);
  }

  /** What parses is a header, the data it counts, and at most 1024 bytes more. */
  lemma ParseBack(plaintext: Bytes, d: MessageData)
    requires Parse(plaintext) == Ok(d) && |plaintext| < 0x8000_0000
    ensures |d.data| % 4 == 0 && 32 + |d.data| <= |plaintext| <= 32 + |d.data| + 1024
    ensures plaintext == Header(d.salt, d.sessionId, d.messageId, d.seqNo, |d.data|) + d.data + plaintext[32 + |d.data|..]
  {
    WrapCases(|plaintext| - 32);
    var s, n := plaintext[..32], |d.data|;
    assert s[..8] == plaintext[..8] && s[8..16] == plaintext[8..16] && s[16..24] == plaintext[16..24];
    assert s[24..28] == plaintext[24..28] && s[28..32] == plaintext[28..32];
    HeaderBack(s, n);
    ThreeParts(plaintext, n);
  }

  lemma ThreeParts(s: Bytes, n: nat)
    requires 32 + n <= |s|
    ensures s == s[..32] + s[32..32 + n] + s[32 + n..]
  {
  }

  /** A message with the right message key for what it decrypts to is the sealing of that. */
  lemma SealingOf(env: Env, key: AuthKey, m: EncryptedMessage, side: Side, plaintext: Bytes)
    requires IsPermutation(env.cipher) && |m.data| % 16 == 0 && m.authKeyId == AuthKeyId(env, key)
    requires
      var k := DeriveKeys(env, key, m.msgKey, side);
      plaintext == Decrypted(Decryptor(env.cipher, k.key), k.iv[..16], k.iv[16..], m.data)
    requires MessageKey(env, key, plaintext, side) == m.msgKey
    ensures Sealed(env, key, plaintext, side) == m
  {
    var k := DeriveKeys(env, key, m.msgKey, side);
    EncryptUndoesDecrypt(Encryptor(env.cipher, k.key), Decryptor(env.cipher, k.key), k.iv[..16], k.iv[16..], m.data);
  }

  lemma OpenedIsSealed(env: Env, key: AuthKey, m: EncryptedMessage, decryptAs: Side, d: MessageData)
    requires IsPermutation(env.cipher) && |m.data| < 0x8000_0000 && Opened(env, key, m, decryptAs) == Ok(d)
    ensures exists padding :: IsSealing(env, key, m, Opposite(decryptAs), d, padding)
  {
    var side := Opposite(decryptAs);
    var k := DeriveKeys(env, key, m.msgKey, side);
    var plaintext := Decrypted(Decryptor(env.cipher, k.key), k.iv[..16], k.iv[16..], m.data);
    ParseBack(plaintext, d);
    SealingOf(env, key, m, side, plaintext);
    assert IsSealing(env, key, m, side, d, plaintext[32 + |d.data|..]);
  }

  lemma SealingOpens(env: Env, key: AuthKey, m: EncryptedMessage, decryptAs: Side, d: MessageData, padding: Bytes)
    requires IsPermutation(env.cipher) && |m.data| < 0x8000_0000 && IsSealing(env, key, m, Opposite(decryptAs), d, padding)
    ensures Opened(env, key, m, decryptAs) == Ok(d)
  {
    var padded := Header(d.salt, d.sessionId, d.messageId, d.seqNo, |d.data|) + d.data + padding;
    Opens(env, key, padded, Opposite(decryptAs));
    ParseTrip(d.salt, d.sessionId, d.messageId, d.seqNo, d.data, padding);
  }

  /**
   A message opens to these fields and this data exactly when it is what the other side seals for
   them, with the right key id and message key, whole words of data and at most 1024 bytes of
   padding. Nothing else opens to anything.
   */
  lemma OnlySealedOpens(env: Env, key: AuthKey, m: EncryptedMessage, decryptAs: Side, d: MessageData)
    requires IsPermutation(env.cipher) && |m.data| < 0x8000_0000
    ensures Opened(env, key, m, decryptAs) == Ok(d) <==> exists padding :: IsSealing(env, key, m, Opposite(decryptAs), d, padding)
  {
    if Opened(env, key, m, decryptAs) == Ok(d) { OpenedIsSealed(env, key, m, decryptAs, d); }
    forall padding | IsSealing(env, key, m, Opposite(decryptAs), d, padding) ensures Opened(env, key, m, decryptAs) == Ok(d) {
      SealingOpens(env, key, m, decryptAs, d, padding);
    }
  }

  /** Which bytes of the auth key, and of which hashes, make the keys of either direction. */
  lemma KeysByPosition(env: Env, key: AuthKey, msgKey: Block, padded: Bytes, side: Side)
    ensures
      var k, x := DeriveKeys(env, key, msgKey, side), if side == Client then 0 else 8;
      var a, b := env.sha256(msgKey + key[x..x + 36]), env.sha256(key[40 + x..40 + x + 36] + msgKey);
      && (forall i | 0 <= i < 8 || 24 <= i < 32 :: k.key[i] == a[i] && k.iv[i] == b[i])
      && (forall i | 8 <= i < 24 :: k.key[i] == b[i] && k.iv[i] == a[i])
      && (forall i | 0 <= i < 16 :: MessageKey(env, key, padded, side)[i] == env.sha256(key[88 + x..88 + x + 32] + padded)[8 + i])
      && (forall i | 0 <= i < 8 :: AuthKeyId(env, key)[i] == env.sha1(key)[12 + i])
  {
  }

  // ---- The envelope on the wire ----

  function Encode(m: EncryptedMessage): Bytes { m.authKeyId + m.msgKey + m.data }

  function Decode(s: Bytes): Result<EncryptedMessage, TlError> {
    if |s| < 24 then Err(Underrun) else Ok(EncryptedMessage(s[..8], s[8..24], s[24..]))
  }

  lemma EnvelopeTrip(m: EncryptedMessage)
    requires |m.authKeyId| == 8
    ensures Decode(Encode(m)) == Ok(m)
  {
    assert Encode(m)[..8] == m.authKeyId && Encode(m)[8..24] == m.msgKey && Encode(m)[24..] == m.data;
  }

  lemma EnvelopeBack(s: Bytes)
    requires |s| >= 24
    ensures Decode(s).Ok? && Encode(Decode(s).value) == s
  {
  }

  method DecodeInPlace(b: TLBuffer) returns (r: Result<EncryptedMessage, TlError>)
    modifies b
    ensures r == Decode(old(b.buf))
    ensures b.buf == if r.Ok? then [] else old(b.buf)
  {
    if |b.buf| < 24 { return Err(Underrun); }
    ghost var all := b.buf;
    var authKeyId := b.ConsumeN(8);
    var msgKey := b.ConsumeN(16);
    assert all[8..][..16] == all[8..24] && all[8..][16..] == all[24..];
    r := Ok(EncryptedMessage(authKeyId.value, msgKey.value, b.buf));
    b.buf := [];
  }
}
