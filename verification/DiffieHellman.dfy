/**
 The key exchange: checks on g and p, the server's draw of its secret, and the shared key.
 */
module DiffieHellman {
  import opened Wrappers
  import opened ByteStrings
  import opened ModArith
  import opened Bignum

  datatype DhError = BadG | NotResidue | BadModulus | BadGRange | BadGaRange | BadGbRange | UnsafeGa | UnsafeGb

  const GENERATOR: nat := 3

  predicate Subgroup(p: nat, divider: nat, expected: set<nat>)
    requires divider > 0
  {
    p % divider in expected
  }

  function CheckGP(g: nat, p: Bytes): Result<(), DhError> {
    var n := Nat(p);
    var residue :=
      match g
      case 2 => Ok(Subgroup(n, 8, {7}))
      case 3 => Ok(Subgroup(n, 3, {2}))
      case 4 => Ok(true)
      case 5 => Ok(Subgroup(n, 5, {1, 4}))
      case 6 => Ok(Subgroup(n, 24, {19, 23}))
      case 7 => Ok(Subgroup(n, 7, {3, 5, 6}))
      case _ => Err(BadG);
    if residue.Err? then Err(residue.error) else if residue.value then Ok(()) else Err(NotResidue)
  }

  predicate InRange(x: int, lo: int, hi: int) { lo < x < hi }

  predicate IsSafe(x: int, p: int) { InRange(x, 1, p - 1) && InRange(x, TWO_1984, p - TWO_1984) }

  function CheckDHParams(p: Bytes, g: nat, ga: Bytes, gb: Bytes): Result<(), DhError> {
    var n, a, b := Nat(p), Nat(ga), Nat(gb);
    if !InRange(g, 1, n - 1) then Err(BadGRange)
    else if !InRange(a, 1, n - 1) then Err(BadGaRange)
    else if !InRange(b, 1, n - 1) then Err(BadGbRange)
    else if !InRange(a, TWO_1984, n - TWO_1984) then Err(UnsafeGa)
    else if !InRange(b, TWO_1984, n - TWO_1984) then Err(UnsafeGb)
    else Ok(())
  }

  function ModPowFixed(base: Bytes, exponent: Bytes, modulus: Bytes, n: nat): Result<Bytes, string>
    requires Nat(modulus) > 0
  {
    FixedBytes(Pow(Nat(base), Nat(exponent)) % Nat(modulus), n)
  }

  datatype Draw = Secret(a: Bytes, ga: Bytes) | StillDrawing

  /** The first of the draws whose public value is in the safe range. */
  predicate IsFirstSafe(g: Bytes, p: Bytes, draws: seq<Bytes>, n: nat)
    requires Nat(p) > 0 && n < |draws|
  {
    && IsSafe(Nat(ModPow(g, draws[n], p)), Nat(p))
    && forall i | 0 <= i < n :: !IsSafe(Nat(ModPow(g, draws[i], p)), Nat(p))
  }

  /** The resampling loop, run on the random bytes it would draw. */
  method GenerateGa(g: nat, p: Bytes, draws: seq<Bytes>) returns (r: Result<Draw, DhError>)
    ensures CheckGP(g, p).Err? ==> r == Err(CheckGP(g, p).error)
    ensures CheckGP(g, p).Ok? && Nat(p) == 0 && draws != [] ==> r == Err(BadModulus)
    ensures CheckGP(g, p).Ok? && Nat(p) > 0 ==>
      && r.Ok?
      && (r.value.StillDrawing? <==>
            forall i | 0 <= i < |draws| :: !IsSafe(Nat(ModPow([Octet(g)], draws[i], p)), Nat(p)))
      && (r.value.Secret? ==> exists n | 0 <= n < |draws| ::
            IsFirstSafe([Octet(g)], p, draws, n) && r.value == Secret(draws[n], ModPow([Octet(g)], draws[n], p)))
  {
    var checked := CheckGP(g, p);
    if checked.Err? { return Err(checked.error); }
    var gBytes := [Octet(g)];
    var n, safetyMax := Nat(p), Nat(p) - TWO_1984;
    for k := 0 to |draws|
      invariant k > 0 ==> n > 0
      invariant n > 0 ==> forall i | 0 <= i < k :: !IsSafe(Nat(ModPow(gBytes, draws[i], p)), n)
    {
      if n == 0 { return Err(BadModulus); }
      var ga := ModPow(gBytes, draws[k], p);
      var x := Nat(ga);
      if x > 1 && x < n - 1 && x > TWO_1984 && x < safetyMax {
        assert IsFirstSafe(gBytes, p, draws, k);
        return Ok(Secret(draws[k], ga));
      }
    }
    return Ok(StillDrawing);
  }

  /** Which g and p pass: p has a remainder for which g generates the subgroup of squares. */
  lemma WhichGroupsPass(g: nat, p: Bytes)
    ensures
      var n := Nat(p);
      CheckGP(g, p).Ok? <==>
        || (g == 2 && n % 8 == 7)
        || (g == 3 && n % 3 == 2)
        || g == 4
        || (g == 5 && (n % 5 == 1 || n % 5 == 4))
        || (g == 6 && (n % 24 == 19 || n % 24 == 23))
        || (g == 7 && (n % 7 == 3 || n % 7 == 5 || n % 7 == 6))
    ensures CheckGP(g, p) == Err(BadG) <==> !(2 <= g <= 7)
  {
  }

  /** Parameters pass exactly when g is no trivial value and both public values are safe. */
  lemma WhichParametersPass(p: Bytes, g: nat, ga: Bytes, gb: Bytes)
    ensures CheckDHParams(p, g, ga, gb).Ok? <==> 1 < g < Nat(p) - 1 && IsSafe(Nat(ga), Nat(p)) && IsSafe(Nat(gb), Nat(p))
  {
  }

  /**
   A public value in the safe range, between 2^1984 and P - 2^1984, passes every check but those
   on the other party's.
   */
  lemma SafeValuePasses(ga: Bytes, gb: Bytes)
    requires IsSafe(Nat(ga), P)
    ensures CheckDHParams(FixedDhPrime(), GENERATOR, ga, gb) ==
            if !InRange(Nat(gb), 1, P - 1) then Err(BadGbRange)
            else if !InRange(Nat(gb), TWO_1984, P - TWO_1984) then Err(UnsafeGb) else Ok(())
    ensures CheckDHParams(FixedDhPrime(), GENERATOR, ga, ga) == Ok(())
    ensures TWO_1984 == Pow256(248) && IsSafe(Nat(ga), P) == (Pow256(248) < Nat(ga) < P - Pow256(248))
  {
    PowerOf248();
    PrimeValue();
  }

  /** The deployment's own constants pass the subgroup check, so the loop is reached. */
  lemma FixedPrimePasses()
    ensures CheckGP(GENERATOR, FixedDhPrime()) == Ok(())
  {
    PrimeValue();
  }

  /**
   Both parties arrive at one key: for any client exponent b, however g_b was written down, the
   server's key from g_b equals the client's from g_a. It is always 256 bytes.
   */
  lemma KeysAgree(a: Bytes, b: Bytes, ga: Bytes, gb: Bytes)
    requires Nat(ga) == Nat(ModPow([Octet(GENERATOR)], a, FixedDhPrime()))
    requires Nat(gb) == Nat(ModPow([Octet(GENERATOR)], b, FixedDhPrime()))
    ensures
      var key := Fixed(Pow(Nat(ga), Nat(b)) % P, 256);
      ModPowFixed(gb, a, FixedDhPrime(), 256) == Ok(key) == ModPowFixed(ga, b, FixedDhPrime(), 256)
  {
    PrimeValue();
    PublicValueOf(a);
    PublicValueOf(b);
    PowersCommute(GENERATOR, P, Nat(a), Nat(b), Nat(ga), Nat(gb));
    KeyFits(Pow(Nat(ga), Nat(b)) % P);
  }

  lemma PublicValueOf(e: Bytes)
    ensures Nat(ModPow([Octet(GENERATOR)], e, FixedDhPrime())) == Pow(GENERATOR, Nat(e)) % P
  {
    PrimeValue();
    assert Nat([Octet(GENERATOR)]) == GENERATOR by { assert [Octet(GENERATOR)][..0] == []; }
    ValueOfModPow([Octet(GENERATOR)], e, FixedDhPrime());
  }

  lemma KeyFits(v: nat)
    requires v < P
    ensures FixedBytes(v, 256) == Ok(Fixed(v, 256))
  {
    PrimeBound();
    FixedBytesFits(v, 256);
  }
}
