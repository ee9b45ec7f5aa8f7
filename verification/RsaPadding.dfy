/**
 RSA_PAD and its inverse. Raw RSA, SHA-256 and the block cipher are parameters; random bytes
 are inputs in the order they are drawn.
 */
module RsaPadding {
  import opened Wrappers
  import opened ByteStrings
  import opened Ige

  const DATA_LIMIT: nat := 144
  const PADDED_LENGTH: nat := 192

  type Raw = s: Bytes | |s| == 256 witness Zeros(256)

  datatype RsaKey = RsaKey(n: Bytes, encrypt: Bytes -> Raw, decrypt: Bytes -> Raw)

  datatype Env = Env(cipher: Cipher, sha256: Bytes -> Digest)

  datatype PadError = TooLong | ModulusLength | HashMismatch

  datatype Output = Ciphertext(bytes: Bytes) | StillDrawing

  /** Decryption undoes encryption below the modulus. */
  ghost predicate Inverts(key: RsaKey) {
    forall x: Raw :: Nat(x) < Nat(key.n) ==> key.decrypt(key.encrypt(x)) == x
  }

  // ---- Comparing ----

  lemma MoreInFront(x: nat, y: nat, w: nat, s: nat, t: nat)
    requires x > y && t < w
    ensures x * w + s > y * w + t
  {
    assert x * w >= (y + 1) * w;
  }

  lemma ByteOrder(a: byte, b: byte)
    ensures (a > b) == (a as int > b as int)
  {
  }

  lemma PrefixGreater(p: Bytes, q: Bytes, i: nat)
    requires |p| == |q| == i + 1 && p[..i] == q[..i] && p[i] as int > q[i] as int
    ensures Nat(p) > Nat(q)
  {
    assert p == p[..i] + [p[i]] && q == q[..i] + [q[i]];
    NatSnoc(p[..i], p[i]);
    NatSnoc(q[..i], q[i]);
  }

  lemma SplitGreater(p: Bytes, s: Bytes, q: Bytes, t: Bytes, w: nat)
    requires Nat(p) > Nat(q) && |s| == |t| && w == Pow256(|t|)
    ensures Nat(p + s) > Nat(q + t)
  {
    NatOfConcat(p, s);
    NatOfConcat(q, t);
    NatBound(t);
    MoreInFront(Nat(p), Nat(q), w, Nat(s), Nat(t));
  }

  /** The first byte that differs decides. */
  lemma FirstDifference(a: Bytes, b: Bytes, i: nat)
    requires |a| == |b| && i < |a| && a[..i] == b[..i] && a[i] as int > b[i] as int
    ensures Nat(a) > Nat(b)
  {
    var p, q, s, t := a[..i + 1], b[..i + 1], a[i + 1..], b[i + 1..];
    assert p[..i] == a[..i] && q[..i] == b[..i];
    assert a == p + s && b == q + t;
    PrefixGreater(p, q, i);
    SplitGreater(p, s, q, t, Pow256(|t|));
  }

  method GreaterOrEqual(a: Bytes, b: Bytes) returns (r: Result<bool, PadError>)
    ensures r == if |a| != |b| then Err(ModulusLength) else Ok(Nat(a) >= Nat(b))
  {
    if |a| != |b| { return Err(ModulusLength); }
    for i := 0 to |a|
      invariant a[..i] == b[..i]
    {
      if a[i] != b[i] {
        ByteOrder(a[i], b[i]);
        if a[i] as int > b[i] as int {
          FirstDifference(a, b, i);
        } else {
          if a[i] as int == b[i] as int { SameOctet(a[i], b[i]); }
          FirstDifference(b, a, i);
        }
        return Ok(a[i] > b[i]);
      }
    }
    assert a[..|a|] == a && b[..|a|] == b;
    return Ok(true);
  }

  // ---- Padding ----

  const ZERO_IV: Bytes := Zeros(32)

  function WithHash(env: Env, padded: Bytes, tempKey: Digest): (r: Bytes)
    requires |padded| == PADDED_LENGTH
    ensures |r| == 224
  {
    Reversed(padded) + env.sha256(tempKey + padded)
  }

  /** The 256 bytes one draw of the temporary key leads to. */
  function Attempt(env: Env, padded: Bytes, tempKey: Digest): (r: Raw)
    requires |padded| == PADDED_LENGTH
  {
    var aes := Encrypted(Encryptor(env.cipher, tempKey), Zeros(16), Zeros(16), WithHash(env, padded, tempKey));
    Xor(tempKey, env.sha256(aes)) + aes
  }

  predicate Fits(env: Env, padded: Bytes, tempKey: Digest, key: RsaKey)
    requires |padded| == PADDED_LENGTH
  {
    Nat(Attempt(env, padded, tempKey)) < Nat(key.n)
  }

  predicate IsFirstFit(env: Env, padded: Bytes, draws: seq<Digest>, key: RsaKey, i: nat)
    requires |padded| == PADDED_LENGTH && i < |draws|
  {
    Fits(env, padded, draws[i], key) && forall j | 0 <= j < i :: !Fits(env, padded, draws[j], key)
  }

  /** Steps 4 to 7 for one draw. */
  method PadOnce(env: Env, padded: Bytes, reversed: Bytes, tempKey: Digest) returns (attempt: Raw)
    requires |padded| == PADDED_LENGTH && reversed == Reversed(padded)
    ensures attempt == Attempt(env, padded, tempKey)
  {
    var withHash := reversed + env.sha256(tempKey + padded);
    assert ZERO_IV[..16] == Zeros(16) && ZERO_IV[16..] == Zeros(16);
    var aes := IgeEncrypt(env.cipher, tempKey, ZERO_IV, withHash);
    attempt := Xor(tempKey, env.sha256(aes.value)) + aes.value;
  }

  /** padding and draws are what the random source fills the buffers with. */
  method RsaPad(env: Env, data: Bytes, key: RsaKey, padding: Bytes, draws: seq<Digest>) returns (r: Result<Output, PadError>)
    requires |data| <= DATA_LIMIT ==> |padding| == PADDED_LENGTH - |data|
    ensures |data| > DATA_LIMIT ==> r == Err(TooLong)
    ensures |data| <= DATA_LIMIT && |key.n| != 256 && draws != [] ==> r == Err(ModulusLength)
    ensures |data| <= DATA_LIMIT && |key.n| == 256 ==>
      && r.Ok?
      && (r.value.StillDrawing? <==> forall i | 0 <= i < |draws| :: !Fits(env, data + padding, draws[i], key))
      && (r.value.Ciphertext? ==> exists i | 0 <= i < |draws| ::
            IsFirstFit(env, data + padding, draws, key, i) && r.value.bytes == key.encrypt(Attempt(env, data + padding, draws[i])))
  {
    if |data| > DATA_LIMIT { return Err(TooLong); }
    var padded := data + padding;
    var reversed := new byte[192](i requires 0 <= i < 192 => padded[i]);
    assert reversed[..] == padded;
    ReverseInPlace(reversed);
    for i := 0 to |draws|
      invariant reversed[..] == Reversed(padded)
      invariant i > 0 ==> |key.n| == 256
      invariant forall j | 0 <= j < i :: !Fits(env, padded, draws[j], key)
    {
      var tempKey := draws[i];
      var attempt := PadOnce(env, padded, reversed[..], tempKey);
      var tooBig := GreaterOrEqual(attempt, key.n);
      if tooBig.Err? { return Err(ModulusLength); }
      if !tooBig.value {
        assert IsFirstFit(env, padded, draws, key, i);
        return Ok(Ciphertext(key.encrypt(attempt)));
      }
    }
    return Ok(StillDrawing);
  }

  function Unpadded(env: Env, raw: Raw): Result<Bytes, PadError> {
    var aes := raw[32..];
    var tempKey := Xor(raw[..32], env.sha256(aes));
    var withHash := Decrypted(Decryptor(env.cipher, tempKey), Zeros(16), Zeros(16), aes);
    var padded := Reversed(withHash[..PADDED_LENGTH]);
    if withHash[PADDED_LENGTH..] != env.sha256(tempKey + padded) then Err(HashMismatch) else Ok(padded)
  }

  method RsaUnpad(env: Env, data: Bytes, key: RsaKey) returns (r: Result<Bytes, PadError>)
    ensures r == Unpadded(env, key.decrypt(data))
  {
    var encrypted := key.decrypt(data);
    var aes := encrypted[32..];
    var tempKey := Xor(encrypted[..32], env.sha256(aes));
    assert ZERO_IV[..16] == Zeros(16) && ZERO_IV[16..] == Zeros(16);
    var withHash := IgeDecrypt(env.cipher, tempKey, ZERO_IV, aes);
    var plain := withHash.value;
    var padded := new byte[192](i requires 0 <= i < 192 => plain[i]);
    assert padded[..] == plain[..192];
    ReverseInPlace(padded);
    if plain[192..] != env.sha256(tempKey + padded[..]) { return Err(HashMismatch); }
    return Ok(padded[..]);
  }

  // ---- Round trip ----

  lemma AttemptUnpads(env: Env, padded: Bytes, tempKey: Digest)
    requires IsPermutation(env.cipher) && |padded| == PADDED_LENGTH
    ensures Unpadded(env, Attempt(env, padded, tempKey)) == Ok(padded)
  {
    var withHash := WithHash(env, padded, tempKey);
    var aes := Encrypted(Encryptor(env.cipher, tempKey), Zeros(16), Zeros(16), withHash);
    var raw := Attempt(env, padded, tempKey);
    assert raw[32..] == aes && raw[..32] == Xor(tempKey, env.sha256(aes));
    XorTwice(tempKey, env.sha256(aes));
    DecryptUndoesEncrypt(Encryptor(env.cipher, tempKey), Decryptor(env.cipher, tempKey), Zeros(16), Zeros(16), withHash);
    assert withHash[..192] == Reversed(padded) && withHash[192..] == env.sha256(tempKey + padded);
    ReversedTwice(padded);
  }

  lemma UnpaddedIsAttempt(env: Env, raw: Raw, padded: Bytes) returns (tempKey: Digest)
    requires IsPermutation(env.cipher) && Unpadded(env, raw) == Ok(padded)
    ensures |padded| == PADDED_LENGTH && raw == Attempt(env, padded, tempKey)
  {
    var aes := raw[32..];
    tempKey := Xor(raw[..32], env.sha256(aes));
    var withHash := Decrypted(Decryptor(env.cipher, tempKey), Zeros(16), Zeros(16), aes);
    EncryptUndoesDecrypt(Encryptor(env.cipher, tempKey), Decryptor(env.cipher, tempKey), Zeros(16), Zeros(16), aes);
    ReversedTwice(withHash[..192]);
    assert withHash == withHash[..192] + withHash[192..];
    XorTwice(raw[..32], env.sha256(aes));
    assert raw == raw[..32] + raw[32..];
  }

  /** 256 bytes unpad to something exactly when they are an attempt at padding it, with its hash intact. */
  lemma OnlyAttemptsUnpad(env: Env, raw: Raw, padded: Bytes)
    requires IsPermutation(env.cipher) && |padded| == PADDED_LENGTH
    ensures Unpadded(env, raw) == Ok(padded) <==> exists tempKey: Digest :: raw == Attempt(env, padded, tempKey)
  {
    if Unpadded(env, raw) == Ok(padded) { var tempKey := UnpaddedIsAttempt(env, raw, padded); }
    forall tempKey: Digest | raw == Attempt(env, padded, tempKey) ensures Unpadded(env, raw) == Ok(padded) {
      AttemptUnpads(env, padded, tempKey);
    }
  }

  /** Whatever the loop returns, it unpads to 192 bytes that begin with the data. */
  lemma RsaTrip(env: Env, data: Bytes, key: RsaKey, padding: Bytes, draws: seq<Digest>, i: nat)
    requires IsPermutation(env.cipher) && Inverts(key)
    requires |data| <= DATA_LIMIT && |padding| == PADDED_LENGTH - |data|
    requires i < |draws| && IsFirstFit(env, data + padding, draws, key, i)
    ensures
      var back := Unpadded(env, key.decrypt(key.encrypt(Attempt(env, data + padding, draws[i]))));
      back == Ok(data + padding) && |back.value| == 192 && data <= back.value
  {
    AttemptUnpads(env, data + padding, draws[i]);
  }
}
