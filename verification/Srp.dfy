/**
 The password proof of both sides. SHA-256 and PBKDF2 are parameters: nothing below depends
 on what they compute.
 */
module Srp {
  import opened Wrappers
  import opened ByteStrings
  import opened ModArith
  import opened Bignum

  datatype Hashes = Hashes(sha256: Bytes -> Digest, pbkdf2: (Bytes, Bytes) -> Bytes)

  datatype SrpError = VerifierOutOfRange | AOutOfRange | UIsZero

  datatype Challenge = Challenge(bSecret: Bytes, b: Bytes)

  datatype Answer = Answer(a: Bytes, m1: Digest)

  const G: Bytes := [3]

  const BASE_SALT2: Bytes := [0xBE, 0xDE, 0x48, 0x88, 0x8C, 0x0F, 0x42, 0xAC, 0x34, 0xFF, 0xD1, 0xD4, 0x93, 0x5D, 0x8B, 0x21]

  function BaseP(): (r: Bytes)
    ensures Nat(r) == P
  {
    PrimeValue();
    FixedDhPrime()
  }

  function PadToHash(s: Bytes): (r: Bytes)
    ensures |r| == 256
  {
    if |s| >= 256 then s[|s| - 256..] else Zeros(256 - |s|) + s
  }

  method SrpPadToHash(input: Bytes) returns (out: array<byte>)
    ensures out[..] == PadToHash(input)
  {
    out := new byte[256](_ => 0);
    if |input| >= 256 {
      CopyInto(out, 0, input[|input| - 256..]);
      assert out[..256] == out[..];
      return;
    }
    assert out[..256 - |input|] == Zeros(256 - |input|);
    CopyInto(out, 256 - |input|, input);
    assert out[..256] == out[..];
  }

  method Xor32(a: array<byte>, b: array<byte>) returns (out: array<byte>)
    requires a.Length == b.Length == 32
    ensures out[..] == Xor(a[..], b[..])
  {
    out := new byte[32];
    for i := 0 to 32
      invariant forall j | 0 <= j < i :: out[j] == a[j] ^ b[j]
    {
      out[i] := a[i] ^ b[i];
    }
  }

  function SaltHash(h: Hashes, data: Bytes, salt: Bytes): Bytes { h.sha256(salt + data + salt) }

  function Ph1(h: Hashes, password: Bytes, salt1: Bytes, salt2: Bytes): Bytes {
    SaltHash(h, SaltHash(h, password, salt1), salt2)
  }

  function Ph2(h: Hashes, password: Bytes, salt1: Bytes, salt2: Bytes): Bytes {
    SaltHash(h, h.pbkdf2(Ph1(h, password, salt1, salt2), salt1), salt2)
  }

  function Multiplier(h: Hashes): Digest { h.sha256(BaseP() + PadToHash(G)) }

  function Scrambler(h: Hashes, a: Bytes, b: Bytes): Digest { h.sha256(a + b) }

  predicate AllZero(s: Bytes) { forall i | 0 <= i < |s| :: s[i] == 0 }

  function ProofInput(h: Hashes, salt1: Bytes, salt2: Bytes, a: Bytes, b: Bytes, key: Bytes): Bytes {
    Xor(h.sha256(BaseP()), h.sha256(PadToHash(G))) + h.sha256(salt1) + h.sha256(salt2) + a + b + key
  }

  function Proof(h: Hashes, salt1: Bytes, salt2: Bytes, a: Bytes, b: Bytes, key: Bytes): Digest {
    h.sha256(ProofInput(h, salt1, salt2, a, b, key))
  }

  /** Where each part of the hashed string is: H(p) xor H(g), H(salt1), H(salt2), A, B, K. */
  lemma ProofByPosition(h: Hashes, salt1: Bytes, salt2: Bytes, a: Bytes, b: Bytes, key: Digest)
    requires |a| == |b| == 256
    ensures
      var s := ProofInput(h, salt1, salt2, a, b, key);
      && |s| == 640
      && (forall i | 0 <= i < 32 :: s[i] == h.sha256(FixedDhPrime())[i] ^ h.sha256(Zeros(255) + [3])[i])
      && s[32..64] == h.sha256(salt1) && s[64..96] == h.sha256(salt2)
      && s[96..352] == a && s[352..608] == b && s[608..] == key
  {
    assert PadToHash(G) == Zeros(255) + [3];
    assert BaseP() == FixedDhPrime();
  }

  /** The exponent behind a password, in one formula. */
  lemma PasswordHash(h: Hashes, password: Bytes, salt1: Bytes, salt2: Bytes)
    ensures
      var inner := h.sha256(salt2 + h.sha256(salt1 + password + salt1) + salt2);
      Ph2(h, password, salt1, salt2) == h.sha256(salt2 + h.pbkdf2(inner, salt1) + salt2)
  {
  }

  // ---- Server ----

  function MakeChallenge(h: Hashes, verifier: Bytes, bSecret: Bytes): Result<Challenge, SrpError> {
    if !IsGoodLarge(verifier, BaseP()) then Err(VerifierOutOfRange)
    else
      var kv := MulMod(Multiplier(h), verifier, BaseP());
      Ok(Challenge(bSecret, PadToHash(AddMod(kv, ModPow(G, bSecret, BaseP()), BaseP()))))
  }

  function CalcM1(h: Hashes, salt1: Bytes, verifier: Bytes, bSecret: Bytes, srpB: Bytes, clientA: Bytes): Result<Digest, SrpError> {
    if !IsGoodLarge(clientA, BaseP()) then Err(AOutOfRange)
    else if !IsGoodLarge(verifier, BaseP()) then Err(VerifierOutOfRange)
    else
      var a, b := PadToHash(clientA), PadToHash(srpB);
      var u := Scrambler(h, a, b);
      if AllZero(u) then Err(UIsZero)
      else
        var s := ModPow(MulMod(clientA, ModPow(verifier, u, BaseP()), BaseP()), bSecret, BaseP());
        Ok(Proof(h, salt1, BASE_SALT2, a, b, h.sha256(PadToHash(s))))
  }

  /** The number the server raises, (A * v^u)^b modulo P, with no reduction in between. */
  function SessionKey(v: Bytes, u: Bytes, bSecret: Bytes, a: Bytes): Bytes {
    Fixed(Pow(Nat(a) * Pow(Nat(v), Nat(u)), Nat(bSecret)) % P, 256)
  }

  lemma PadIsFixed(v: nat)
    requires v < P
    ensures PadToHash(Minimal(v)) == Fixed(v, 256)
  {
    PadKeepsValue(v);
    FixedOfNat(PadToHash(Minimal(v)));
  }

  lemma ReducedPower(a: nat, x: nat, xr: nat, w: nat, e: nat, m: nat)
    requires m > 0 && xr == x % m && w == (a * xr) % m
    ensures Pow(w, e) % m == Pow(a * x, e) % m
  {
    MulModLeft(x, a, m);
    assert xr * a == a * xr && x * a == a * x;
    PowMod(a * x, e, m);
  }

  lemma ServerKey(v: Bytes, u: Bytes, bSecret: Bytes, a: Bytes)
    ensures PadToHash(ModPow(MulMod(a, ModPow(v, u, BaseP()), BaseP()), bSecret, BaseP())) == SessionKey(v, u, bSecret, a)
  {
    var vu := ModPow(v, u, BaseP());
    var w := MulMod(a, vu, BaseP());
    ValueOfModPow(v, u, BaseP());
    ValueOfMulMod(a, vu, BaseP());
    ReducedPower(Nat(a), Pow(Nat(v), Nat(u)), Nat(vu), Nat(w), Nat(bSecret), P);
    PadIsFixed(Pow(Nat(w), Nat(bSecret)) % P);
  }

  /** What the server expects, in numbers: which inputs it refuses, and otherwise the proof of (A * v^u)^b. */
  lemma ExpectedProof(h: Hashes, salt1: Bytes, v: Bytes, bSecret: Bytes, srpB: Bytes, clientA: Bytes)
    ensures
      var a, b := PadToHash(clientA), PadToHash(srpB);
      var u := Scrambler(h, a, b);
      CalcM1(h, salt1, v, bSecret, srpB, clientA) ==
      if !(0 < Nat(clientA) < P) then Err(AOutOfRange)
      else if !(0 < Nat(v) < P) then Err(VerifierOutOfRange)
      else if AllZero(u) then Err(UIsZero)
      else Ok(Proof(h, salt1, BASE_SALT2, a, b, h.sha256(SessionKey(v, u, bSecret, clientA))))
  {
    ServerKey(v, Scrambler(h, PadToHash(clientA), PadToHash(srpB)), bSecret, clientA);
  }

  // ---- Client ----

  function ComputeVerifier(h: Hashes, password: Bytes, salt1: Bytes, salt2: Bytes): Bytes {
    PadToHash(ModPow(G, Ph2(h, password, salt1, salt2), BaseP()))
  }

  function ClientProof(h: Hashes, password: Bytes, salt1: Bytes, salt2: Bytes, srpB: Bytes, random: Bytes): Answer {
    var a, b := PadToHash(ModPow(G, random, BaseP())), PadToHash(srpB);
    var u, x := h.sha256(a + b), Ph2(h, password, salt1, salt2);
    var kv := MulMod(h.sha256(BaseP() + PadToHash(G)), ModPow(G, x, BaseP()), BaseP());
    var t := SubMod(srpB, kv, BaseP());
    var s := PadToHash(ModPow(t, Bignum.Add(random, Mul(u, x)), BaseP()));
    var start := Xor(h.sha256(BaseP()), h.sha256(PadToHash(G)));
    Answer(a, h.sha256(start + h.sha256(salt1) + h.sha256(salt2) + a + b + h.sha256(s)))
  }

  // ---- The two sides agree ----

  lemma PadKeepsValue(v: nat)
    requires v < P
    ensures Nat(PadToHash(Minimal(v))) == v
  {
    PrimeBound();
    PaddedMinimal(v, 256);
    NatOfFixed(v, 256);
    assert |Minimal(v)| == 256 ==> Zeros(0) + Minimal(v) == Minimal(v);
  }

  lemma NatOfG()
    ensures Nat(G) == 3
  {
    assert G[..0] == [];
  }

  lemma MulNegates(m: nat, q: int)
    ensures m * -q == -(m * q)
  {
  }

  lemma SmallMod(x: nat, m: nat)
    requires x < m
    ensures x % m == x
  {
  }

  lemma SubtractBack(q: int, r: nat, kv: nat, gb: nat, m: nat)
    requires gb < m && kv + gb == m * q + r
    ensures (r - kv) % m == gb
  {
    MulNegates(m, q);
    AddMultiple(gb, -q, m);
    SmallMod(gb, m);
  }

  /** Undoing the server's k * v leaves the plain power, whichever way the sum wrapped. */
  lemma Unmask(kv: nat, gb: nat, m: nat)
    requires gb < m
    ensures ((kv + gb) % m - kv) % m == gb
  {
    SubtractBack((kv + gb) / m, (kv + gb) % m, kv, gb, m);
  }

  lemma PublicValue(exponent: Bytes)
    ensures Nat(ModPow(G, exponent, BaseP())) == Pow(3, Nat(exponent)) % P
  {
    NatOfG();
    NatOfMinimal(Pow(3, Nat(exponent)) % P);
  }

  lemma PublicValueIsGood(exponent: Bytes)
    ensures
      var r := PadToHash(ModPow(G, exponent, BaseP()));
      IsGoodLarge(r, BaseP()) && Nat(r) == Pow(3, Nat(exponent)) % P
  {
    NatOfG();
    PowersOfThree(Nat(exponent));
    PadKeepsValue(Pow(3, Nat(exponent)) % P);
  }

  lemma ValueOfSub(a: Bytes, b: Bytes, m: Bytes)
    requires Nat(m) > 0
    ensures Nat(SubMod(a, b, m)) == (Nat(a) - Nat(b)) % Nat(m)
  {
    NatOfMinimal((Nat(a) - Nat(b)) % Nat(m));
  }

  lemma ValueOfAddMod(a: Bytes, b: Bytes, m: Bytes)
    requires Nat(m) > 0
    ensures Nat(AddMod(a, b, m)) == (Nat(a) + Nat(b)) % Nat(m)
  {
    NatOfMinimal((Nat(a) + Nat(b)) % Nat(m));
  }

  lemma Unmasked(kv: nat, gb: nat, b: nat, m: nat, r: nat)
    requires gb < m && b == (kv + gb) % m && r == (b - kv) % m
    ensures r == gb
  {
    Unmask(kv, gb, m);
  }

  lemma MaskedSum(kv: Bytes, gb: Bytes, b: Bytes, m: Bytes)
    requires Nat(m) > 0 && Nat(gb) < Nat(m) && Nat(b) == Nat(AddMod(kv, gb, m))
    ensures Nat(SubMod(b, kv, m)) == Nat(gb)
  {
    ValueOfAddMod(kv, gb, m);
    ValueOfSub(b, kv, m);
    Unmasked(Nat(kv), Nat(gb), Nat(b), Nat(m), Nat(SubMod(b, kv, m)));
  }

  lemma PadKeepsSum(a: Bytes, b: Bytes)
    ensures Nat(PadToHash(AddMod(a, b, BaseP()))) == Nat(AddMod(a, b, BaseP()))
  {
    PadKeepsValue((Nat(a) + Nat(b)) % P);
    NatOfMinimal((Nat(a) + Nat(b)) % P);
  }

  /** What the client works out of B is the server's power of g, whatever the multiplier is. */
  lemma ClientUnmasksB(h: Hashes, v: Bytes, v': Bytes, bSecret: Bytes)
    requires IsGoodLarge(v, BaseP()) && Nat(v') == Nat(v)
    ensures
      var c := MakeChallenge(h, v, bSecret);
      && c.Ok? && |c.value.b| == 256 && c.value.bSecret == bSecret
      && Nat(SubMod(c.value.b, MulMod(Multiplier(h), v', BaseP()), BaseP())) == Pow(3, Nat(bSecret)) % P
  {
    var kv, gb := MulMod(Multiplier(h), v, BaseP()), ModPow(G, bSecret, BaseP());
    var b := MakeChallenge(h, v, bSecret).value.b;
    assert b == PadToHash(AddMod(kv, gb, BaseP()));
    PublicValue(bSecret);
    PadKeepsSum(kv, gb);
    MaskedSum(kv, gb, b, BaseP());
  }

  /** v^u is g^(u*x), where v = g^x. */
  lemma VerifierPower(v: Bytes, u: Bytes, x: Bytes)
    requires Nat(v) == Pow(3, Nat(x)) % P
    ensures Nat(ModPow(v, u, BaseP())) == Pow(3, Nat(Mul(u, x))) % P
  {
    ValueOfModPow(v, u, BaseP());
    ValueOfMul(u, x);
    PowerOfPower(3, P, Nat(x), Nat(u), Nat(v), Nat(ModPow(v, u, BaseP())), Nat(Mul(u, x)));
  }

  /** a * v^u is g^(random + u*x), the client's exponent. */
  lemma BlindedPower(a: Bytes, random: Bytes, vu: Bytes, ux: Bytes)
    requires Nat(a) == Pow(3, Nat(random)) % P && Nat(vu) == Pow(3, Nat(ux)) % P
    ensures Nat(MulMod(a, vu, BaseP())) == Pow(3, Nat(Bignum.Add(random, ux))) % P
  {
    ValueOfMulMod(a, vu, BaseP());
    ValueOfAdd(random, ux);
    ProductOfPowers(3, P, Nat(random), Nat(ux), Nat(Bignum.Add(random, ux)), Nat(a), Nat(vu), Nat(MulMod(a, vu, BaseP())));
  }

  lemma SecretsCommute(w: Bytes, e: Bytes, t: Bytes, b: Bytes)
    requires Nat(w) == Pow(3, Nat(e)) % P && Nat(t) == Pow(3, Nat(b)) % P
    ensures ModPow(w, b, BaseP()) == ModPow(t, e, BaseP())
  {
    PowersCommute(3, P, Nat(e), Nat(b), Nat(w), Nat(t));
  }

  lemma SharedSecret(v: Bytes, a: Bytes, u: Bytes, x: Bytes, random: Bytes, b: Bytes, t: Bytes, vu: Bytes, ux: Bytes, w: Bytes, e: Bytes)
    requires Nat(v) == Pow(3, Nat(x)) % P && Nat(a) == Pow(3, Nat(random)) % P && Nat(t) == Pow(3, Nat(b)) % P
    requires vu == ModPow(v, u, BaseP()) && ux == Mul(u, x)
    requires w == MulMod(a, vu, BaseP()) && e == Bignum.Add(random, ux)
    ensures ModPow(w, b, BaseP()) == ModPow(t, e, BaseP())
  {
    assert Nat(w) == Pow(3, Nat(e)) % P by {
      assert Nat(vu) == Pow(3, Nat(ux)) % P by { VerifierPower(v, u, x); }
      BlindedPower(a, random, vu, ux);
    }
    SecretsCommute(w, e, t, b);
  }

  /**
   For every password, salt, client exponent and server secret the server expects exactly the
   proof the client sends, unless u happens to be zero, which the server refuses.
   */
  lemma ServerExpectsClientProof(h: Hashes, password: Bytes, salt1: Bytes, random: Bytes, bSecret: Bytes)
    ensures
      var v := ComputeVerifier(h, password, salt1, BASE_SALT2);
      var c := MakeChallenge(h, v, bSecret);
      && c.Ok?
      && var answer := ClientProof(h, password, salt1, BASE_SALT2, c.value.b, random);
      CalcM1(h, salt1, v, bSecret, c.value.b, answer.a) ==
      if AllZero(Scrambler(h, answer.a, c.value.b)) then Err(UIsZero) else Ok(answer.m1)
  {
    var x := Ph2(h, password, salt1, BASE_SALT2);
    var v := ComputeVerifier(h, password, salt1, BASE_SALT2);
    var v' := ModPow(G, x, BaseP());
    PublicValueIsGood(x);
    PublicValueIsGood(random);
    NatOfG();
    NatOfMinimal(Pow(3, Nat(x)) % P);
    ClientUnmasksB(h, v, v', bSecret);
    var c := MakeChallenge(h, v, bSecret).value;
    var a := PadToHash(ModPow(G, random, BaseP()));
    assert PadToHash(a) == a && PadToHash(c.b) == c.b;
    var u := Scrambler(h, a, c.b);
    var t := SubMod(c.b, MulMod(Multiplier(h), v', BaseP()), BaseP());
    var vu, ux := ModPow(v, u, BaseP()), Mul(u, x);
    SharedSecret(v, a, u, x, random, bSecret, t, vu, ux, MulMod(a, vu, BaseP()), Bignum.Add(random, ux));
  }
}
