/**
 The encrypted answers of the key exchange: data behind its own SHA-1, padded to whole blocks,
 the reader guessing the length of the padding.
 */
module ExchangeAnswers {
  import opened Wrappers
  import opened ByteStrings
  import opened Ige

  type Sha1 = Bytes -> Sha1Digest

  datatype AnswerError = BadCipherInput(error: IgeError) | TooSmall | NoMatch

  function PaddedLen16(l: nat): nat {
    var n := 16 * (l / 16);
    if n < l then n + 16 else n
  }

  function PadLength(data: Bytes): nat { PaddedLen16(|data| + 20) - (20 + |data|) }

  lemma PaddedLenIsNearest(l: nat)
    ensures PaddedLen16(l) % 16 == 0 && l <= PaddedLen16(l) < l + 16
  {
  }

  /** padding is what the random source fills the tail with. */
  function WithHash(sha1: Sha1, data: Bytes, padding: Bytes): Bytes { sha1(data) + data + padding }

  method DataWithHash(sha1: Sha1, data: Bytes, padding: Bytes) returns (out: Bytes)
    requires |padding| == PaddedLen16(|data| + 20) - (20 + |data|)
    ensures out == WithHash(sha1, data, padding) && |out| % 16 == 0 && |padding| <= 15
  {
    PaddedLenIsNearest(|data| + 20);
    var buf := new byte[PaddedLen16(|data| + 20)](_ => 0);
    CopyInto(buf, 0, sha1(data));
    CopyInto(buf, 20, data);
    CopyInto(buf, 20 + |data|, padding);
    assert buf[..20 + |data| + |padding|] == buf[..];
    return buf[..];
  }

  /** The candidate that drops i bytes of padding. */
  function Candidate(s: Bytes, i: nat): Bytes
    requires 20 + i <= |s|
  {
    s[20..|s| - i]
  }

  predicate Matches(sha1: Sha1, s: Bytes, i: nat) { 20 + i <= |s| && sha1(Candidate(s, i)) == s[..20] }

  /** The longest matching candidate, among those that drop at least i and at most 15 bytes. */
  function GuessFrom(sha1: Sha1, s: Bytes, i: nat): Result<Bytes, AnswerError>
    requires i <= 16
    decreases 16 - i
  {
    if i == 16 || |s| < 20 + i then Err(NoMatch)
    else if Matches(sha1, s, i) then Ok(Candidate(s, i))
    else GuessFrom(sha1, s, i + 1)
  }

  function Guess(sha1: Sha1, s: Bytes): Result<Bytes, AnswerError> {
    if |s| <= 20 then Err(TooSmall) else GuessFrom(sha1, s, 0)
  }

  method GuessDataWithHash(sha1: Sha1, s: Bytes) returns (r: Result<Bytes, AnswerError>)
    ensures r == Guess(sha1, s)
  {
    if |s| <= 20 { return Err(TooSmall); }
    var want := s[..20];
    for i := 0 to 16
      invariant GuessFrom(sha1, s, i) == Guess(sha1, s)
    {
      if |s| - i < 20 { return Err(NoMatch); }
      var candidate := s[20..|s| - i];
      if sha1(candidate) == want { return Ok(candidate); }
    }
    return Err(NoMatch);
  }

  // ---- What a guess is worth ----

  lemma {:induction false} GuessFromSound(sha1: Sha1, s: Bytes, i: nat)
    requires i <= 16
    ensures GuessFrom(sha1, s, i).Ok? ==> exists j | i <= j < 16 ::
      Matches(sha1, s, j) && GuessFrom(sha1, s, i) == Ok(Candidate(s, j)) && forall k | i <= k < j :: !Matches(sha1, s, k)
    ensures GuessFrom(sha1, s, i).Err? ==> forall j | i <= j < 16 :: !Matches(sha1, s, j)
    decreases 16 - i
  {
    if i < 16 && |s| >= 20 + i && !Matches(sha1, s, i) {
      GuessFromSound(sha1, s, i + 1);
    }
  }

  /** A value that is returned has the stored hash, drops at most 15 bytes, and is the longest that does. */
  lemma GuessSound(sha1: Sha1, s: Bytes)
    ensures Guess(sha1, s).Ok? ==> exists j | 0 <= j <= 15 ::
      && 20 + j <= |s| && Guess(sha1, s) == Ok(Candidate(s, j)) && sha1(Candidate(s, j)) == s[..20]
      && forall k | 0 <= k < j :: !Matches(sha1, s, k)
    ensures Guess(sha1, s).Err? <==> |s| <= 20 || forall j | 0 <= j < 16 :: !Matches(sha1, s, j)
  {
    if |s| > 20 { GuessFromSound(sha1, s, 0); }
  }

  /** No longer prefix of data and padding happens to have the hash of the data. */
  predicate NoCollision(sha1: Sha1, data: Bytes, padding: Bytes) {
    forall n | 0 < n <= |padding| :: sha1(data + padding[..n]) != sha1(data)
  }

  lemma {:induction false} GuessReaches(sha1: Sha1, s: Bytes, i: nat, n: nat)
    requires i <= n < 16 && 20 + n <= |s| && Matches(sha1, s, n) && forall j | i <= j < n :: !Matches(sha1, s, j)
    ensures GuessFrom(sha1, s, i) == Ok(Candidate(s, n))
    decreases n - i
  {
    if i < n {
      assert !Matches(sha1, s, i);
      GuessReaches(sha1, s, i + 1, n);
    }
  }

  lemma CandidatesArePrefixes(sha1: Sha1, data: Bytes, padding: Bytes, i: nat)
    requires i <= |padding|
    ensures Candidate(WithHash(sha1, data, padding), i) == data + padding[..|padding| - i]
    ensures Matches(sha1, WithHash(sha1, data, padding), i) <==> sha1(data + padding[..|padding| - i]) == sha1(data)
  {
    assert WithHash(sha1, data, padding)[..20] == sha1(data);
  }

  /** Padded data is guessed back exactly when no longer candidate collides. */
  lemma GuessTrip(sha1: Sha1, data: Bytes, padding: Bytes)
    requires |padding| == PadLength(data)
    ensures Guess(sha1, WithHash(sha1, data, padding)) == Ok(data) <==> NoCollision(sha1, data, padding)
  {
    var s, n := WithHash(sha1, data, padding), |padding|;
    PaddedLenIsNearest(|data| + 20);
    assert |s| % 16 == 0 && |s| > 20;
    forall i | 0 <= i <= n
      ensures Candidate(s, i) == data + padding[..n - i]
      ensures Matches(sha1, s, i) <==> sha1(data + padding[..n - i]) == sha1(data)
    {
      CandidatesArePrefixes(sha1, data, padding, i);
    }
    assert padding[..0] == [] && data + [] == data;
    if NoCollision(sha1, data, padding) {
      GuessReaches(sha1, s, 0, n);
    } else {
      var k :| 0 < k <= n && sha1(data + padding[..k]) == sha1(data);
      GuessSound(sha1, s);
      assert Matches(sha1, s, n - k);
      var j :| 0 <= j <= 15 && 20 + j <= |s| && Guess(sha1, s) == Ok(Candidate(s, j)) && forall i | 0 <= i < j :: !Matches(sha1, s, i);
      assert j <= n - k;
      assert |Candidate(s, j)| > |data|;
    }
  }

  // ---- Under the temporary key ----

  function EncryptAnswer(cipher: Cipher, sha1: Sha1, key: Bytes, iv: Bytes, answer: Bytes, padding: Bytes): Result<Bytes, AnswerError> {
    var r := EncryptWith(cipher, key, iv, WithHash(sha1, answer, padding));
    if r.Err? then Err(BadCipherInput(r.error)) else Ok(r.value)
  }

  function DecryptAnswer(cipher: Cipher, sha1: Sha1, key: Bytes, iv: Bytes, data: Bytes): Result<Bytes, AnswerError> {
    var r := DecryptWith(cipher, key, iv, data);
    if r.Err? then Err(BadCipherInput(r.error)) else Guess(sha1, r.value)
  }

  method EncryptExchangeAnswer(cipher: Cipher, sha1: Sha1, key: Bytes, iv: Bytes, answer: Bytes, padding: Bytes)
    returns (r: Result<Bytes, AnswerError>)
    requires |padding| == PadLength(answer)
    ensures r == EncryptAnswer(cipher, sha1, key, iv, answer, padding)
  {
    var data := DataWithHash(sha1, answer, padding);
    var encrypted := IgeEncrypt(cipher, key, iv, data);
    r := if encrypted.Err? then Err(BadCipherInput(encrypted.error)) else Ok(encrypted.value);
  }

  method DecryptExchangeAnswer(cipher: Cipher, sha1: Sha1, key: Bytes, iv: Bytes, data: Bytes) returns (r: Result<Bytes, AnswerError>)
    ensures r == DecryptAnswer(cipher, sha1, key, iv, data)
  {
    var decrypted := IgeDecrypt(cipher, key, iv, data);
    if decrypted.Err? { return Err(BadCipherInput(decrypted.error)); }
    r := GuessDataWithHash(sha1, decrypted.value);
  }

  /** The other side reads the answer exactly when no longer candidate collides. */
  lemma AnswerTrip(cipher: Cipher, sha1: Sha1, key: Bytes, iv: Bytes, answer: Bytes, padding: Bytes)
    requires IsPermutation(cipher) && KeyLengthOk(key) && |iv| == 32 && |padding| == PadLength(answer)
    ensures
      var sent := EncryptAnswer(cipher, sha1, key, iv, answer, padding);
      && sent.Ok?
      && (DecryptAnswer(cipher, sha1, key, iv, sent.value) == Ok(answer) <==> NoCollision(sha1, answer, padding))
  {
    var data := WithHash(sha1, answer, padding);
    PaddedLenIsNearest(|answer| + 20);
    IgeTrip(cipher, key, iv, data);
    GuessTrip(sha1, answer, padding);
  }
}
