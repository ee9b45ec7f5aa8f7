/**
 What a server's exchange calculates, on what it draws: the messages it sends, the keys it
 agrees on, and the salt.
 */
module ServerCrypto {
  import opened Wrappers
  import opened ByteStrings
  import opened TlBuffers
  import opened Ige
  import opened ExchangeAnswers
  import opened Handshakes
  import opened ModArith
  import Bignum
  import DiffieHellman
  import RsaPadding

  const RES_PQ: UInt32 := 0x05162463
  const SERVER_DH_PARAMS_OK: UInt32 := 0xD0E8075C
  const SERVER_DH_INNER: UInt32 := 0xB5890DBA
  const CLIENT_DH_INNER: UInt32 := 0x6643B654
  const DH_GEN_OK: UInt32 := 0x3BCBF734

  const PQ: Bytes := [0x17, 0xED, 0x48, 0x94, 0x1A, 0x08, 0xF9, 0x81]

  datatype Crypto = Crypto(cipher: Cipher, sha1: Sha1, sha256: Bytes -> Digest, key: RsaPadding.RsaKey, fingerprint: Int64)

  function RsaEnv(c: Crypto): RsaPadding.Env { RsaPadding.Env(c.cipher, c.sha256) }

  /** What one exchange draws, and reads off the clock. */
  datatype Draws = Draws(
    serverNonce: Nonce, now: int, serverTime: Int32,
    a: Bytes,                                        // the secret GenerateGa ends with
    padding: nat -> byte,
    resPqId: Int64, paramsId: Int64, genOkId: Int64) // message ids

  // ---- Framing ----

  function Plain(messageId: Int64, data: Bytes): Bytes { Word64(0) + (Word64(messageId) + (EncodeInt32(WrapInt32(|data|)) + data)) }

  lemma {:induction false} LeOfZero(n: nat)
    ensures Le(0, n) == Zeros(n)
  {
    if n > 0 {
      LeOfZero(n - 1);
      LeIsZeros(n);
    }
  }

  lemma LeIsZeros(n: nat)
    requires n > 0 && Le(0, n - 1) == Zeros(n - 1)
    ensures Le(0, n) == Zeros(n)
  {
    assert Octet(0) == 0 by { OctetOf(0); }
    assert Le(0, n) == [Octet(0)] + Le(0, n - 1);
  }

  lemma FieldsOf(zeros: Bytes, id: Bytes, size: Bytes, data: Bytes)
    requires |zeros| == 8 && |id| == 8 && |size| == 4
    ensures
      var s := zeros + (id + (size + data));
      s[..8] == zeros && s[8..16] == id && s[16..20] == size && s[20..] == data && s[20..20 + |data|] == data
  {}

  /** A plain frame is taken for what it is. */
  lemma PlainReads(messageId: Int64, data: Bytes)
    requires |data| < 0x8000_0000
    ensures Plain(messageId, data)[..8] == Zeros(8) && |Plain(messageId, data)| >= 20
    ensures DecodeEnvelope(Plain(messageId, data)) == Some(Envelope(messageId, data))
  {
    var s := Plain(messageId, data);
    var size := EncodeInt32(WrapInt32(|data|));
    LeOfZero(8);
    Word64Trip(0, Word64(0));
    Word64Trip(messageId, Word64(messageId));
    SmallCount(|data|);
    Word32Trip(AsUInt32(WrapInt32(|data|)), size);
    FieldsOf(Word64(0), Word64(messageId), size, data);
  }

  // ---- Keys from nonces ----

  function TempKey(sha1: Sha1, newNonce: NewNonce, serverNonce: Nonce): (r: Digest) {
    sha1(newNonce + serverNonce) + sha1(serverNonce + newNonce)[..12]
  }

  function TempIv(sha1: Sha1, newNonce: NewNonce, serverNonce: Nonce): (r: Digest) {
    sha1(serverNonce + newNonce)[12..] + sha1(newNonce + newNonce) + newNonce[..4]
  }

  method TempAesKeys(sha1: Sha1, newNonce: NewNonce, serverNonce: Nonce) returns (key: Bytes, iv: Bytes)
    ensures key == TempKey(sha1, newNonce, serverNonce) && iv == TempIv(sha1, newNonce, serverNonce)
  {
    var nnSn, snNn, nnNn := sha1(newNonce + serverNonce), sha1(serverNonce + newNonce), sha1(newNonce + newNonce);
    key := nnSn;
    key := key + snNn[..12];
    iv := snNn[12..20];
    iv := iv + nnNn;
    iv := iv + newNonce[..4];
  }

  /** Which bytes of which hashes make the temporary key and IV. */
  lemma TempKeysByPosition(sha1: Sha1, newNonce: NewNonce, serverNonce: Nonce)
    ensures
      var key, iv := TempKey(sha1, newNonce, serverNonce), TempIv(sha1, newNonce, serverNonce);
      var ns, sn, nn := sha1(newNonce + serverNonce), sha1(serverNonce + newNonce), sha1(newNonce + newNonce);
      && key[..20] == ns && key[20..] == sn[..12]
      && iv[..8] == sn[12..] && iv[8..28] == nn && iv[28..] == newNonce[..4]
  {
  }

  function Salt(newNonce: NewNonce, serverNonce: Nonce): Int64 { ReadWord64(Xor(newNonce[..8], serverNonce[..8])) }

  lemma {:induction false} LeValSnoc(s: Bytes, b: byte)
    ensures LeVal(s + [b]) == LeVal(s) + b as int * Pow256(|s|)
  {
    if s != [] {
      LeValSnoc(s[1..], b);
      assert (s + [b])[1..] == s[1..] + [b];
      Distributes(LeVal(s[1..]), b as int, Pow256(|s| - 1));
    }
  }

  lemma Distributes(v: nat, b: nat, p: nat)
    ensures 256 * (v + b * p) == 256 * v + b * (256 * p)
  {
  }

  /** The loop over the eight bytes, which or-ing together adds up: they do not overlap. */
  method ServerSalt(newNonce: NewNonce, serverNonce: Nonce) returns (r: Int64)
    ensures r == Salt(newNonce, serverNonce)
  {
    var v := 0;
    ghost var x := Xor(newNonce[..8], serverNonce[..8]);
    for i := 0 to 8
      invariant v == LeVal(x[..i])
    {
      assert x[..i + 1] == x[..i] + [x[i]];
      LeValSnoc(x[..i], x[i]);
      v := v + (newNonce[i] ^ serverNonce[i]) as int * Pow256(i);
    }
    assert x[..8] == x;
    LeValBound(x);
    Pow256Values();
    r := if v < 0x8000_0000_0000_0000 then v else v - 0x1_0000_0000_0000_0000;
  }

  function NonceHash(sha1: Sha1, newNonce: NewNonce, key: AuthKey): Block { sha1(newNonce + [1] + sha1(key)[..8])[4..] }

  /** The first of the nonce hashes: the last 16 bytes of the hash of the new nonce, 1 and the front of the key's hash. */
  lemma NonceHashByPosition(sha1: Sha1, newNonce: NewNonce, key: AuthKey, i: nat)
    requires i < 16
    ensures NonceHash(sha1, newNonce, key)[i] == sha1(newNonce + [1] + sha1(key)[..8])[4 + i]
  {
  }

  // ---- Messages ----

  /** The fields most messages of the exchange begin with. */
  function Nonces(id: UInt32, nonce: Nonce, serverNonce: Nonce, fields: Bytes): Bytes {
    Word32(id) + (nonce + (serverNonce + fields))
  }

  function ResPqData(c: Crypto, d: Draws, nonce: Nonce): Bytes {
    Nonces(RES_PQ, nonce, d.serverNonce, EncodeBytes(PQ) + (EncodeVectorHeader(1) + Word64(c.fingerprint)))
  }

  function PublicValue(exponent: Bytes): Bytes {
    PrimeValue();
    Bignum.ModPow([Octet(DiffieHellman.GENERATOR)], exponent, FixedDhPrime())
  }

  function DhInner(d: Draws, nonce: Nonce): Bytes {
    Nonces(SERVER_DH_INNER, nonce, d.serverNonce,
           EncodeInt32(DiffieHellman.GENERATOR) +
           (EncodeBytes(FixedDhPrime()) + (EncodeBytes(PublicValue(d.a)) + EncodeInt32(d.serverTime))))
  }

  function Drawn(padding: nat -> byte, data: Bytes): (r: Bytes)
    ensures |r| == PadLength(data)
  {
    seq(PadLength(data), i requires 0 <= i => padding(i))
  }

  function Answered(c: Crypto, newNonce: NewNonce, serverNonce: Nonce, answer: Bytes, padding: nat -> byte): Bytes {
    var r := EncryptAnswer(c.cipher, c.sha1, TempKey(c.sha1, newNonce, serverNonce), TempIv(c.sha1, newNonce, serverNonce),
                           answer, Drawn(padding, answer));
    if r.Ok? then r.value else []
  }

  function Opened(c: Crypto, newNonce: NewNonce, serverNonce: Nonce, data: Bytes): Result<Bytes, AnswerError> {
    DecryptAnswer(c.cipher, c.sha1, TempKey(c.sha1, newNonce, serverNonce), TempIv(c.sha1, newNonce, serverNonce), data)
  }

  function ParamsData(c: Crypto, d: Draws, nonce: Nonce, newNonce: NewNonce): Bytes {
    Nonces(SERVER_DH_PARAMS_OK, nonce, d.serverNonce,
           EncodeBytes(Answered(c, newNonce, d.serverNonce, DhInner(d, nonce), d.padding)))
  }

  function GenOkData(c: Crypto, d: Draws, nonce: Nonce, newNonce: NewNonce, key: AuthKey): Bytes {
    Nonces(DH_GEN_OK, nonce, d.serverNonce, NonceHash(c.sha1, newNonce, key))
  }

  /** The g_b in a decrypted client_DH_inner_data. */
  function DecodeClientInner(s: Bytes): Option<Bytes> {
    var id := TakeId(s, CLIENT_DH_INNER);
    if id.Err? || |id.value| < 32 then None else DecodePublic(id.value[32..])
  }

  /** What follows the nonces: retry_id, and g_b. */
  function DecodePublic(s: Bytes): Option<Bytes> {
    var retry := TakeLong(s);
    if retry.Err? then None
    else
      var gb := TakeBytes(retry.value.rest);
      if gb.Err? then None else Some(gb.value.value)
  }

  function KeyFrom(other: Bytes, secret: Bytes): Option<AuthKey> {
    PrimeValue();
    var key := DiffieHellman.ModPowFixed(other, secret, FixedDhPrime(), 256);
    if key.Err? || |key.value| != 256 then None else Some(key.value)
  }

  function AgreeOn(c: Crypto, d: Draws, newNonce: NewNonce, encrypted: Bytes): Option<AuthKey> {
    var plain := Opened(c, newNonce, d.serverNonce, encrypted);
    if plain.Err? then None
    else
      var gb := DecodeClientInner(plain.value);
      if gb.None? then None else KeyFrom(gb.value, d.a)
  }

  function Unpad(c: Crypto, encrypted: Bytes): Option<Bytes> {
    var padded := RsaPadding.Unpadded(RsaEnv(c), c.key.decrypt(encrypted));
    if padded.Err? then None else Some(padded.value)
  }

  /** The server's exchange with these draws. */
  function ServerEnv(c: Crypto, d: Draws): Env {
    Env(d.now,
        (encrypted: Bytes) => Unpad(c, encrypted),
        (newNonce: NewNonce, encrypted: Bytes) => AgreeOn(c, d, newNonce, encrypted),
        (newNonce: NewNonce) => Salt(newNonce, d.serverNonce),
        (nonce: Nonce) => Plain(d.resPqId, ResPqData(c, d, nonce)),
        (nonce: Nonce, newNonce: NewNonce) => Plain(d.paramsId, ParamsData(c, d, nonce, newNonce)),
        (nonce: Nonce, newNonce: NewNonce, key: AuthKey) => Plain(d.genOkId, GenOkData(c, d, nonce, newNonce, key)))
  }
}
