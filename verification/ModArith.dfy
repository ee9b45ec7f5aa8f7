/**
 Powers and remainders, and the group constants that SRP and the key exchange share.
 */
module ModArith {
  import opened ByteStrings

  function Pow(b: nat, e: nat): nat {
    if e == 0 then 1 else b * Pow(b, e - 1)
  }

  lemma {:induction false} PowAdds(b: nat, d: nat, e: nat)
    ensures Pow(b, d + e) == Pow(b, d) * Pow(b, e)
  {
    if d > 0 {
      PowAdds(b, d - 1, e);
      MulAssociates(b, Pow(b, d - 1), Pow(b, e));
    }
  }

  lemma MulAssociates(a: nat, b: nat, c: nat)
    ensures a * (b * c) == (a * b) * c
  {
  }

  lemma MulSwaps(a: nat, b: nat, c: nat, d: nat)
    ensures (a * b) * (c * d) == (a * c) * (b * d)
  {
  }

  lemma {:induction false} PowOfProduct(a: nat, b: nat, e: nat)
    ensures Pow(a * b, e) == Pow(a, e) * Pow(b, e)
  {
    if e > 0 {
      PowOfProduct(a, b, e - 1);
      MulSwaps(a, b, Pow(a, e - 1), Pow(b, e - 1));
    }
  }

  lemma {:induction false} PowOfPow(b: nat, d: nat, e: nat)
    ensures Pow(Pow(b, d), e) == Pow(b, d * e)
  {
    if e > 0 {
      PowOfPow(b, d, e - 1);
      PowAdds(b, d, d * (e - 1));
      assert d + d * (e - 1) == d * e;
    }
  }

  lemma {:induction false} PowOfOne(e: nat)
    ensures Pow(1, e) == 1
  {
    if e > 0 { PowOfOne(e - 1); }
  }

  // ---- Remainders ----

  lemma Remainder(q: int, r: nat, m: nat)
    requires r < m
    ensures (m * q + r) % m == r
  {
    var x := m * q + r;
    var d := q - x / m;
    assert m * d == x % m - r;
    if d >= 1 { assert m * d >= m by { MulGrows(m, d); } }
    if d <= -1 { assert m * -d >= m by { MulGrows(m, -d); } }
  }

  lemma MulGrows(m: nat, d: int)
    requires d >= 1
    ensures m * d >= m
  {
  }

  lemma AddMultiple(x: int, k: int, m: nat)
    requires m > 0
    ensures (x + m * k) % m == x % m
  {
    assert x + m * k == m * (x / m + k) + x % m;
    Remainder(x / m + k, x % m, m);
  }

  lemma ModOfMod(x: int, m: nat)
    requires m > 0
    ensures (x % m) % m == x % m
  {
  }

  lemma MulModLeft(a: nat, b: nat, m: nat)
    requires m > 0
    ensures ((a % m) * b) % m == (a * b) % m
  {
    var r, q := a % m, a / m;
    assert a * b == r * b + m * (q * b) by { assert a == m * q + r; }
    AddMultiple(r * b, q * b, m);
  }

  lemma MulModBoth(a: nat, b: nat, m: nat)
    requires m > 0
    ensures ((a % m) * (b % m)) % m == (a * b) % m
  {
    MulModLeft(a, b % m, m);
    MulModLeft(b, a, m);
    assert a * (b % m) == (b % m) * a && a * b == b * a;
  }

  lemma {:induction false} PowMod(a: nat, e: nat, m: nat)
    requires m > 0
    ensures Pow(a % m, e) % m == Pow(a, e) % m
  {
    if e > 0 {
      PowMod(a, e - 1, m);
      MulModBoth(a, Pow(a, e - 1), m);
      MulModBoth(a % m, Pow(a % m, e - 1), m);
      ModOfMod(a, m);
    }
  }

  lemma PowerOfPower(g: nat, m: nat, x: nat, u: nat, v: nat, r: nat, ux: nat)
    requires m > 0 && v == Pow(g, x) % m && r == Pow(v, u) % m && ux == u * x
    ensures r == Pow(g, ux) % m
  {
    PowMod(Pow(g, x), u, m);
    PowOfPow(g, x, u);
    assert x * u == ux;
  }

  lemma ProductOfPowers(g: nat, m: nat, d: nat, e: nat, s: nat, v: nat, w: nat, r: nat)
    requires m > 0 && v == Pow(g, d) % m && w == Pow(g, e) % m && r == (v * w) % m && s == d + e
    ensures r == Pow(g, s) % m
  {
    MulModBoth(Pow(g, d), Pow(g, e), m);
    PowAdds(g, d, e);
  }

  /** Raising to d and then to e, or the other way round: reductions in between change nothing. */
  lemma PowersCommute(g: nat, m: nat, d: nat, e: nat, v: nat, w: nat)
    requires m > 0 && v == Pow(g, d) % m && w == Pow(g, e) % m
    ensures Pow(v, e) % m == Pow(w, d) % m
  {
    PowerOfPower(g, m, d, e, v, Pow(v, e) % m, e * d);
    PowerOfPower(g, m, e, d, w, Pow(w, d) % m, e * d);
  }

  // ---- The fixed 2048-bit prime ----

  const P: nat := 0xC71CAEB9C6B1C9048E6C522F70F13F73980D40238E3E21C14934D037563D930F48198A0AA7C14058229493D22530F4DBFA336F6E0AC925139543AED44CCE7C3720FD51F69458705AC68CD4FE6B6B13ABDC9746512969328454F18FAF8C595F642477FE96BB2A941D5BCD1D4AC8CC49880708FA9B378E3C4F3A9060BEE67CF9A4A4A695811051907E162753B56B0F6B410DBA74D8A84B2A14B3144E0EF1284754FD17ED950D5965B4B9DD46582DB1178D169C6BC465B0D6FF9CA3928FEF5B9AE4E418FC15E83EBEA0F87FA9FF5EED70050DED2849F47BF959D956850CE929851F0D8115F635B105EE2E4E15D04B2454BF6F4FADF034B10403119CD8E3B92FCC5B

  const TWO_1984: nat := 0x1_0000000000000000000000000000000000000000000000000000000000000000000000000000000000000000000000000000000000000000000000000000000000000000000000000000000000000000000000000000000000000000000000000000000000000000000000000000000000000000000000000000000000000000000000000000000000000000000000000000000000000000000000000000000000000000000000000000000000000000000000000000000000000000000000000000000000000000000000000000000000000000000000000000000000000000000000000000000000000000000000000000000000000000

  function FixedDhPrime(): (r: Bytes)
    ensures |r| == 256
  {
    Fixed(P, 256)
  }

  lemma PowerOf16()
    ensures Pow256(16) == 0x1_00000000000000000000000000000000
  {
    Pow256Values();
    Pow256Adds(8, 8);
  }

  lemma PowerOf32()
    ensures Pow256(32) == 0x1_0000000000000000000000000000000000000000000000000000000000000000
  {
    PowerOf16();
    Pow256Adds(16, 16);
  }

  lemma PowerOf64()
    ensures Pow256(64) == 0x1_00000000000000000000000000000000000000000000000000000000000000000000000000000000000000000000000000000000000000000000000000000000
  {
    PowerOf32();
    Pow256Adds(32, 32);
  }

  lemma PowerOf128()
    ensures Pow256(128) == 0x1_0000000000000000000000000000000000000000000000000000000000000000000000000000000000000000000000000000000000000000000000000000000000000000000000000000000000000000000000000000000000000000000000000000000000000000000000000000000000000000000000000000000000000000
  {
    PowerOf64();
    Pow256Adds(64, 64);
  }

  lemma PowerOf248()
    ensures Pow256(248) == TWO_1984
  {
    PowerOf128(); PowerOf64(); PowerOf32(); PowerOf16(); Pow256Values();
    Pow256Adds(8, 16); Pow256Adds(24, 32); Pow256Adds(56, 64); Pow256Adds(120, 128);
  }

  lemma PrimeBound()
    ensures P < Pow256(256)
  {
    PowerOf128();
    Pow256Adds(128, 128);
  }

  lemma PrimeValue()
    ensures Nat(FixedDhPrime()) == P
  {
    PrimeBound();
    NatOfFixed(P, 256);
  }

  /** 3 has an inverse modulo P, because P leaves 2 modulo 3: no power of 3 vanishes. */
  lemma PowersOfThree(e: nat)
    ensures 0 < Pow(3, e) % P < P
  {
    assert 3 * ((P + 1) / 3) == P + 1;
    InvertiblePowers(3, (P + 1) / 3, e, P);
  }

  /** What has an inverse modulo m has no power that vanishes. */
  lemma InvertiblePowers(g: nat, inverse: nat, e: nat, m: nat)
    requires m > 1 && g * inverse == m + 1
    ensures 0 < Pow(g, e) % m < m
  {
    OneLeft(m);
    PowOfProduct(g, inverse, e);
    PowMod(m + 1, e, m);
    PowOfOne(e);
    NotZero(Pow(g, e), Pow(inverse, e), m);
  }

  lemma OneLeft(m: nat)
    requires m > 1
    ensures (m + 1) % m == 1 && 1 % m == 1
  {
    AddMultiple(1, 1, m);
  }

  lemma NotZero(a: nat, b: nat, m: nat)
    requires m > 0 && (a * b) % m != 0
    ensures a % m != 0
  {
    MulModLeft(a, b, m);
  }
}
