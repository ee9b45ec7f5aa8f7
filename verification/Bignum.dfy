/**
 Arithmetic on big-endian byte strings. Results are minimal: no leading zero, and empty for zero.
 */
module Bignum {
  import opened Wrappers
  import opened ByteStrings
  import opened ModArith

  function ModPow(base: Bytes, exponent: Bytes, modulus: Bytes): Bytes
    requires Nat(modulus) > 0
  {
    Minimal(Pow(Nat(base), Nat(exponent)) % Nat(modulus))
  }

  function MulMod(a: Bytes, b: Bytes, modulus: Bytes): Bytes
    requires Nat(modulus) > 0
  {
    Minimal((Nat(a) * Nat(b)) % Nat(modulus))
  }

  function AddMod(a: Bytes, b: Bytes, modulus: Bytes): Bytes
    requires Nat(modulus) > 0
  {
    Minimal((Nat(a) + Nat(b)) % Nat(modulus))
  }

  function SubMod(a: Bytes, b: Bytes, modulus: Bytes): Bytes
    requires Nat(modulus) > 0
  {
    Minimal((Nat(a) - Nat(b)) % Nat(modulus))
  }

  function Add(a: Bytes, b: Bytes): Bytes { Minimal(Nat(a) + Nat(b)) }

  function Mul(a: Bytes, b: Bytes): Bytes { Minimal(Nat(a) * Nat(b)) }

  predicate IsGoodLarge(n: Bytes, modulus: Bytes) { 0 < Nat(n) < Nat(modulus) }

  /** The value in exactly n bytes, or nothing when it does not fit. */
  function FixedBytes(v: nat, n: nat): Result<Bytes, string> {
    if |Minimal(v)| > n then Err("value does not fit in the requested fixed length") else Ok(Fixed(v, n))
  }

  lemma Pow256Grows(m: nat, n: nat)
    requires m <= n
    ensures Pow256(m) <= Pow256(n)
  {
    Pow256Adds(m, n - m);
    MulGrows(Pow256(m), Pow256(n - m));
  }

  /** A value converts to n bytes exactly when it is below 256^n, and then without loss. */
  lemma FixedBytesFits(v: nat, n: nat)
    ensures FixedBytes(v, n).Ok? <==> v < Pow256(n)
    ensures FixedBytes(v, n).Ok? ==> FixedBytes(v, n) == Ok(Fixed(v, n)) && Nat(Fixed(v, n)) == v
  {
    if v < Pow256(n) {
      MinimalLength(v, n);
      NatOfFixed(v, n);
    } else if |Minimal(v)| <= n {
      NatOfMinimal(v);
      NatBound(Minimal(v));
      Pow256Grows(|Minimal(v)|, n);
    }
  }

  lemma ValueOfMul(a: Bytes, b: Bytes)
    ensures Nat(Mul(a, b)) == Nat(a) * Nat(b)
  {
    NatOfMinimal(Nat(a) * Nat(b));
  }

  lemma ValueOfAdd(a: Bytes, b: Bytes)
    ensures Nat(Add(a, b)) == Nat(a) + Nat(b)
  {
    SumOf(Nat(a), Nat(b), Add(a, b));
  }

  lemma SumOf(x: nat, y: nat, s: Bytes)
    requires s == Minimal(x + y)
    ensures Nat(s) == x + y
  {
    NatOfMinimal(x + y);
  }

  lemma ValueOfMulMod(a: Bytes, b: Bytes, modulus: Bytes)
    requires Nat(modulus) > 0
    ensures Nat(MulMod(a, b, modulus)) == (Nat(a) * Nat(b)) % Nat(modulus)
  {
    NatOfMinimal((Nat(a) * Nat(b)) % Nat(modulus));
  }

  lemma ValueOfModPow(base: Bytes, exponent: Bytes, modulus: Bytes)
    requires Nat(modulus) > 0
    ensures Nat(ModPow(base, exponent, modulus)) == Pow(Nat(base), Nat(exponent)) % Nat(modulus)
  {
    NatOfMinimal(Pow(Nat(base), Nat(exponent)) % Nat(modulus));
  }

  lemma PadIsFixed(v: nat, n: nat, m: Bytes)
    requires m == Minimal(v) && |m| <= n
    ensures Zeros(n - |m|) + m == Fixed(v, n)
  {
    var s := Zeros(n - |m|) + m;
    NatOfZerosAnd(n - |m|, m);
    NatOfMinimal(v);
    FixedOfNat(s);
  }

  /** A byte string has one value per length: padding on the left cannot be told apart from Fixed. */
  lemma PaddedMinimal(v: nat, n: nat)
    requires v < Pow256(n)
    ensures |Minimal(v)| <= n && Zeros(n - |Minimal(v)|) + Minimal(v) == Fixed(v, n)
  {
    MinimalLength(v, n);
    PadIsFixed(v, n, Minimal(v));
  }
}
