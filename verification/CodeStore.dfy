/**
 The in-memory store of login codes. Each method holds the store's mutex for its whole
 body, so a method is one atomic change of the map; the functions below give that change.
 */
module CodeStores {
  import opened Wrappers
  import ByteStrings

  datatype PhoneCode = PhoneCode(issuedUser: int, signUpVerified: bool, phone: string, code: string, attempts: int, maxAttempts: int)

  datatype Verdict = Missing | Invalid | Accepted

  type Codes = map<string, PhoneCode>

  /** How many mismatches a record survives, counting the one that erases it. */
  function Limit(rec: PhoneCode, fallback: int): int { if rec.maxAttempts > 0 then rec.maxAttempts else fallback }

  function Without(codes: Codes, hash: string): (r: Codes)
    ensures forall h :: h in r <==> h in codes && h != hash
    ensures forall h | h in r :: r[h] == codes[h]
  {
    map h | h in codes && h != hash :: codes[h]
  }

  function VerifyVerdict(codes: Codes, hash: string, phone: string, code: string): Verdict {
    if hash !in codes || codes[hash].phone != phone then Missing
    else if codes[hash].code != code then Invalid
    else Accepted
  }

  function AfterVerify(codes: Codes, hash: string, phone: string, code: string, keep: bool, fallback: int): Codes {
    match VerifyVerdict(codes, hash, phone, code)
    case Missing => codes
    case Invalid =>
      var rec := codes[hash].(attempts := codes[hash].attempts + 1);
      if rec.attempts >= Limit(rec, fallback) then Without(codes, hash) else codes[hash := rec]
    case Accepted =>
      if keep then codes[hash := codes[hash].(signUpVerified := true)] else Without(codes, hash)
  }

  predicate Consumable(codes: Codes, hash: string, phone: string) {
    hash in codes && codes[hash].phone == phone && codes[hash].signUpVerified
  }

  class CodeStore {
    var codes: Codes

    constructor ()
      ensures codes == map[]
    {
      codes := map[];
    }

    method Set(hash: string, code: PhoneCode)
      modifies this
      ensures codes == old(codes)[hash := code]
    {
      codes := codes[hash := code];
    }

    method Get(hash: string) returns (r: Option<PhoneCode>)
      ensures r == if hash in codes then Some(codes[hash]) else None
    {
      if hash !in codes { return None; }
      return Some(codes[hash]);
    }

    method Del(hash: string)
      modifies this
      ensures codes == Without(old(codes), hash)
    {
      codes := Without(codes, hash);
    }

    method VerifyLogin(hash: string, phone: string, code: string, keepForSignUp: bool, defaultMaxAttempts: int)
      returns (verdict: Verdict, accepted: Option<PhoneCode>)
      modifies this
      ensures verdict == VerifyVerdict(old(codes), hash, phone, code)
      ensures verdict.Accepted? <==> hash in old(codes) && old(codes)[hash].phone == phone && old(codes)[hash].code == code
      ensures verdict.Invalid? <==> hash in old(codes) && old(codes)[hash].phone == phone && old(codes)[hash].code != code
      ensures verdict.Missing? ==> codes == old(codes)
      ensures verdict.Invalid? ==>
        var rec := old(codes)[hash];
        var limit := if rec.maxAttempts > 0 then rec.maxAttempts else defaultMaxAttempts;
        if rec.attempts + 1 < limit then hash in codes && codes[hash] == rec.(attempts := rec.attempts + 1) else hash !in codes
      ensures verdict.Accepted? ==>
        if keepForSignUp then hash in codes && codes[hash] == old(codes)[hash].(signUpVerified := true) else hash !in codes
      ensures codes == AfterVerify(old(codes), hash, phone, code, keepForSignUp, defaultMaxAttempts)
      ensures accepted == if verdict.Accepted?
                          then Some(if keepForSignUp then old(codes)[hash].(signUpVerified := true) else old(codes)[hash])
                          else None
      ensures forall h | h != hash :: (h in codes <==> h in old(codes)) && (h in codes ==> codes[h] == old(codes)[h])
    {
      if hash !in codes || codes[hash].phone != phone { return Missing, None; }
      if codes[hash].code != code {
        var maxAttempts := if codes[hash].maxAttempts > 0 then codes[hash].maxAttempts else defaultMaxAttempts;
        codes := codes[hash := codes[hash].(attempts := codes[hash].attempts + 1)];
        if codes[hash].attempts >= maxAttempts { codes := Without(codes, hash); }
        assert codes == AfterVerify(old(codes), hash, phone, code, keepForSignUp, defaultMaxAttempts);
        return Invalid, None;
      }
      var rec := codes[hash];
      if keepForSignUp {
        codes := codes[hash := codes[hash].(signUpVerified := true)];
        rec := rec.(signUpVerified := true);
      } else {
        codes := Without(codes, hash);
      }
      return Accepted, Some(rec);
    }

    method ConsumeSignUpVerified(hash: string, phone: string) returns (r: Option<PhoneCode>)
      modifies this
      ensures r.Some? <==> hash in old(codes) && old(codes)[hash].phone == phone && old(codes)[hash].signUpVerified
      ensures r.Some? ==> r.value == old(codes)[hash] && hash !in codes
      ensures r == if Consumable(old(codes), hash, phone) then Some(old(codes)[hash]) else None
      ensures codes == if Consumable(old(codes), hash, phone) then Without(old(codes), hash) else old(codes)
    {
      if hash !in codes || codes[hash].phone != phone || !codes[hash].signUpVerified { return None; }
      var consumed := codes[hash];
      codes := Without(codes, hash);
      return Some(consumed);
    }
  }

  // ---- Hashes are hex of random bytes ----

  type Octet = n: nat | n < 256

  function Hex(bytes: seq<Octet>): (r: string)
    ensures |r| == 2 * |bytes|
  {
    if bytes == [] then "" else [ByteStrings.HEX[bytes[0] / 16], ByteStrings.HEX[bytes[0] % 16]] + Hex(bytes[1..])
  }

  lemma {:induction false} HexAt(bytes: seq<Octet>, i: nat)
    requires i < |bytes|
    ensures Hex(bytes)[2 * i] == ByteStrings.HEX[bytes[i] / 16] && Hex(bytes)[2 * i + 1] == ByteStrings.HEX[bytes[i] % 16]
  {
    if i > 0 {
      HexAt(bytes[1..], i - 1);
      assert Hex(bytes)[2 * i] == Hex(bytes[1..])[2 * (i - 1)];
    }
  }

  lemma HexDigitInjective(a: nat, b: nat)
    requires a < 16 && b < 16 && ByteStrings.HEX[a] == ByteStrings.HEX[b]
    ensures a == b
  {
  }

  /** Distinct random bytes give distinct hashes. */
  lemma {:induction false} HexInjective(a: seq<Octet>, b: seq<Octet>)
    requires Hex(a) == Hex(b)
    ensures a == b
  {
    assert |a| == |b|;
    forall i | 0 <= i < |a| ensures a[i] == b[i] {
      HexAt(a, i);
      HexAt(b, i);
      HexDigitInjective(a[i] / 16, b[i] / 16);
      HexDigitInjective(a[i] % 16, b[i] % 16);
    }
  }

  method RandomHex(bytes: seq<Octet>) returns (r: string)
    ensures r == Hex(bytes)
  {
    var out := new char[2 * |bytes|](_ => '0');
    for i := 0 to |bytes|
      invariant forall j | 0 <= j < i :: out[2 * j] == ByteStrings.HEX[bytes[j] / 16] && out[2 * j + 1] == ByteStrings.HEX[bytes[j] % 16]
    {
      out[2 * i] := ByteStrings.HEX[bytes[i] / 16];
      out[2 * i + 1] := ByteStrings.HEX[bytes[i] % 16];
    }
    forall k | 0 <= k < out.Length ensures out[k] == Hex(bytes)[k] {
      HexAt(bytes, k / 2);
    }
    return out[..];
  }
}
