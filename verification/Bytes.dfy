/**
 Octet strings, and the integers they stand for in either byte order.
 */
module ByteStrings {
  type byte = bv8

  type Bytes = seq<byte>

  type Block = s: Bytes | |s| == 16 witness Zeros(16)

  type Sha1Digest = s: Bytes | |s| == 20 witness Zeros(20)

  type Digest = s: Bytes | |s| == 32 witness Zeros(32)

  function Zeros(n: nat): (r: Bytes)
    ensures |r| == n
  {
    seq(n, _ => 0)
  }

  lemma Successor(b: byte)
    requires b < 255
    ensures (b + 1) as int == b as int + 1
  {
  }

  lemma {:induction false} SomeOctet(v: nat) returns (b: byte)
    requires v < 256
    ensures b as int == v
  {
    b := 0;
    if v > 0 {
      b := SomeOctet(v - 1);
      Successor(b);
      b := b + 1;
    }
  }

  lemma SameOctet(a: byte, b: byte)
    requires a as int == b as int
    ensures a == b
  {
  }

  predicate StandsFor(b: byte, v: nat) { b as int == v }

  lemma OneOctet(v: nat)
    requires v < 256
    ensures exists b: byte :: StandsFor(b, v)
    ensures forall a: byte, b: byte | StandsFor(a, v) && StandsFor(b, v) :: a == b
  {
    var b := SomeOctet(v);
    assert StandsFor(b, v);
    forall a: byte, b: byte | StandsFor(a, v) && StandsFor(b, v) ensures a == b { SameOctet(a, b); }
  }

  /** The byte that stands for v. */
  function Octet(v: nat): (b: byte)
    requires v < 256
    ensures b as int == v
  {
    OneOctet(v);
    var b: byte :| StandsFor(b, v);
    b
  }

  /** The bytes of a text of one-byte characters. */
  function Latin(s: string): Bytes { seq(|s|, i requires 0 <= i < |s| => Octet(s[i] as int % 256)) }

  const HEX: string := "0123456789abcdef"

  lemma OctetOf(b: byte)
    ensures 0 <= b as int < 256 && Octet(b as int) == b
  {
    SameOctet(Octet(b as int), b);
  }

  lemma DivMod256(w: nat, c: nat)
    requires c < 256
    ensures (256 * w + c) % 256 == c && (256 * w + c) / 256 == w
  {
  }

  predicate IsSuffix(t: Bytes, s: Bytes) { |t| <= |s| && t == s[|s| - |t|..] }

  lemma TailIsSuffix(s: Bytes, k: nat)
    requires k <= |s|
    ensures IsSuffix(s[k..], s)
  {
  }

  lemma SuffixOfSuffix(t: Bytes, u: Bytes, s: Bytes)
    requires IsSuffix(t, u) && IsSuffix(u, s)
    ensures IsSuffix(t, s)
  {
    assert u[|u| - |t|..] == s[|s| - |t|..];
  }

  // ---- Powers of 256 ----

  function Pow256(n: nat): (r: nat)
    ensures r > 0
  {
    if n == 0 then 1 else 256 * Pow256(n - 1)
  }

  lemma {:induction false} Pow256Adds(m: nat, n: nat)
    ensures Pow256(m + n) == Pow256(m) * Pow256(n)
  {
    if m > 0 { Pow256Adds(m - 1, n); }
  }

  lemma Pow256Values()
    ensures Pow256(1) == 0x100 && Pow256(2) == 0x1_0000 && Pow256(3) == 0x100_0000 && Pow256(4) == 0x1_0000_0000
    ensures Pow256(8) == 0x1_0000_0000_0000_0000
  {
    Pow256Adds(4, 4);
  }

  // ---- Little-endian ----

  function Le(v: nat, n: nat): (r: Bytes)
    ensures |r| == n
    decreases n, v
  {
    if n == 0 then [] else [Octet(v % 256)] + Le(v / 256, n - 1)
  }

  function LeVal(s: Bytes): nat {
    if s == [] then 0 else s[0] as int + 256 * LeVal(s[1..])
  }

  lemma {:induction false} LeValBound(s: Bytes)
    ensures LeVal(s) < Pow256(|s|)
  {
    if s != [] { LeValBound(s[1..]); }
  }

  lemma {:induction false} LeValOfLe(v: nat, n: nat)
    requires v < Pow256(n)
    ensures LeVal(Le(v, n)) == v
  {
    if n > 0 {
      LeValOfLe(v / 256, n - 1);
      assert Le(v, n)[1..] == Le(v / 256, n - 1);
    }
  }

  lemma LeCons(c: byte, w: nat, n: nat)
    ensures Le(256 * w + c as int, n + 1) == [c] + Le(w, n)
  {
    OctetOf(c);
    DivMod256(w, c as int);
  }

  lemma {:induction false} LeOfLeVal(s: Bytes)
    ensures Le(LeVal(s), |s|) == s
  {
    if s != [] {
      LeOfLeVal(s[1..]);
      LeCons(s[0], LeVal(s[1..]), |s| - 1);
      assert s == [s[0]] + s[1..];
    }
  }

  // ---- Big-endian ----

  function Nat(s: Bytes): nat {
    if s == [] then 0 else 256 * Nat(s[..|s| - 1]) + s[|s| - 1] as int
  }

  /** v in exactly n bytes, dropping whatever does not fit. */
  function Fixed(v: nat, n: nat): (r: Bytes)
    ensures |r| == n
    decreases n, v
  {
    if n == 0 then [] else Fixed(v / 256, n - 1) + [Octet(v % 256)]
  }

  /** v in as few bytes as it needs: none for zero. */
  function Minimal(v: nat): Bytes {
    if v == 0 then [] else Minimal(v / 256) + [Octet(v % 256)]
  }

  lemma {:induction false} NatBound(s: Bytes)
    ensures Nat(s) < Pow256(|s|)
  {
    if s != [] { NatBound(s[..|s| - 1]); }
  }

  lemma {:induction false} NatOfFixed(v: nat, n: nat)
    requires v < Pow256(n)
    ensures Nat(Fixed(v, n)) == v
  {
    if n > 0 {
      NatOfFixed(v / 256, n - 1);
      assert Fixed(v, n)[..n - 1] == Fixed(v / 256, n - 1);
    }
  }

  lemma {:induction false} NatOfMinimal(v: nat)
    ensures Nat(Minimal(v)) == v
  {
    if v > 0 {
      NatOfMinimal(v / 256);
      assert Minimal(v)[..|Minimal(v)| - 1] == Minimal(v / 256);
    }
  }

  lemma FixedSnoc(c: byte, w: nat, n: nat)
    ensures Fixed(256 * w + c as int, n + 1) == Fixed(w, n) + [c]
  {
    OctetOf(c);
    DivMod256(w, c as int);
  }

  lemma NatSnoc(u: Bytes, c: byte)
    ensures Nat(u + [c]) == 256 * Nat(u) + c as int
  {
    assert (u + [c])[..|u|] == u;
  }

  lemma {:induction false} FixedOfNat(s: Bytes)
    ensures Fixed(Nat(s), |s|) == s
  {
    if s != [] {
      var u, c := s[..|s| - 1], s[|s| - 1];
      assert s == u + [c];
      FixedOfNat(u);
      FixedSnoc(c, Nat(u), |u|);
      NatSnoc(u, c);
    }
  }

  lemma {:induction false} MinimalLength(v: nat, n: nat)
    requires v < Pow256(n)
    ensures |Minimal(v)| <= n
  {
    if v > 0 { MinimalLength(v / 256, n - 1); }
  }

  lemma {:induction false} NatOfZerosAnd(n: nat, s: Bytes)
    ensures Nat(Zeros(n) + s) == Nat(s)
    decreases |s|, n
  {
    var t := Zeros(n) + s;
    if s != [] {
      NatOfZerosAnd(n, s[..|s| - 1]);
      assert t[..|t| - 1] == Zeros(n) + s[..|s| - 1];
    } else if n > 0 {
      NatOfZerosAnd(n - 1, s);
      assert t[..|t| - 1] == Zeros(n - 1) + s;
    }
  }

  lemma ShiftSum(w: nat, p: nat, n: nat, c: nat)
    ensures 256 * (w * p + n) + c == w * (256 * p) + (256 * n + c)
  {
  }

  lemma {:induction false} NatOfConcat(s: Bytes, t: Bytes)
    ensures Nat(s + t) == Nat(s) * Pow256(|t|) + Nat(t)
  {
    if t == [] {
      assert s + t == s;
    } else {
      var u, c := t[..|t| - 1], t[|t| - 1];
      NatOfConcat(s, u);
      assert Nat(s + t) == 256 * Nat(s + u) + c as int by { assert (s + t)[..|s + t| - 1] == s + u; }
      assert Nat(t) == 256 * Nat(u) + c as int;
      ShiftSum(Nat(s), Pow256(|u|), Nat(u), c as int);
    }
  }

  // ---- Signed integers of the wire: two's complement ----

  type Int32 = v: int | -0x8000_0000 <= v < 0x8000_0000

  type Int64 = v: int | -0x8000_0000_0000_0000 <= v < 0x8000_0000_0000_0000

  type UInt32 = v: int | 0 <= v < 0x1_0000_0000

  function AsUInt32(v: Int32): UInt32 { if v < 0 then v + 0x1_0000_0000 else v }

  function AsInt32(v: UInt32): Int32 { if v < 0x8000_0000 then v else v - 0x1_0000_0000 }

  function Word32(v: UInt32): (r: Bytes)
    ensures |r| == 4
  {
    Le(v, 4)
  }

  function Word64(v: Int64): (r: Bytes)
    ensures |r| == 8
  {
    Le(if v < 0 then v + 0x1_0000_0000_0000_0000 else v, 8)
  }

  function ReadWord32(s: Bytes): UInt32
    requires |s| == 4
  {
    LeValBound(s); Pow256Values();
    LeVal(s)
  }

  function ReadWord64(s: Bytes): Int64
    requires |s| == 8
  {
    LeValBound(s); Pow256Values();
    var v := LeVal(s);
    if v < 0x8000_0000_0000_0000 then v else v - 0x1_0000_0000_0000_0000
  }

  lemma Word32Trip(v: UInt32, s: Bytes)
    requires |s| == 4
    ensures ReadWord32(Word32(v)) == v && Word32(ReadWord32(s)) == s
  {
    Pow256Values();
    LeValOfLe(v, 4);
    LeOfLeVal(s);
  }

  lemma Word64Trip(v: Int64, s: Bytes)
    requires |s| == 8
    ensures ReadWord64(Word64(v)) == v && Word64(ReadWord64(s)) == s
  {
    Pow256Values();
    LeValOfLe(if v < 0 then v + 0x1_0000_0000_0000_0000 else v, 8);
    LeOfLeVal(s);
    LeValBound(s);
  }

  // ---- Exclusive or ----

  function Xor(a: Bytes, b: Bytes): (r: Bytes)
    requires |a| == |b|
    ensures |r| == |a|
    ensures forall i | 0 <= i < |a| :: r[i] == a[i] ^ b[i]
  {
    seq(|a|, i requires 0 <= i < |a| => a[i] ^ b[i])
  }

  lemma XorByte(a: byte, b: byte)
    ensures (a ^ b) ^ b == a && a ^ b == b ^ a
  {
  }

  lemma XorTwice(a: Bytes, b: Bytes)
    requires |a| == |b|
    ensures Xor(Xor(a, b), b) == a && Xor(a, b) == Xor(b, a)
  {
    forall i | 0 <= i < |a| ensures Xor(Xor(a, b), b)[i] == a[i] && Xor(a, b)[i] == Xor(b, a)[i] { XorByte(a[i], b[i]); }
  }

  // ---- In place ----

  /** Copies src over the bytes of dst that start at o. */
  method CopyInto(dst: array<byte>, o: nat, src: Bytes)
    requires o + |src| <= dst.Length
    modifies dst
    ensures dst[..o + |src|] == old(dst[..o]) + src && dst[o + |src|..] == old(dst[o + |src|..])
  {
    for i := 0 to |src|
      invariant forall j | o <= j < o + i :: dst[j] == src[j - o]
      invariant forall j | 0 <= j < o || o + i <= j < dst.Length :: dst[j] == old(dst[j])
    {
      dst[o + i] := src[i];
    }
  }

  function Reversed(s: Bytes): (r: Bytes)
    ensures |r| == |s|
    ensures forall k | 0 <= k < |s| :: r[k] == s[|s| - 1 - k]
  {
    seq(|s|, k requires 0 <= k < |s| => s[|s| - 1 - k])
  }

  lemma ReversedTwice(s: Bytes)
    ensures Reversed(Reversed(s)) == s
  {
  }

  method ReverseInPlace(a: array<byte>)
    modifies a
    ensures a[..] == Reversed(old(a[..]))
  {
    var lo, hi := 0, a.Length;
    while hi - lo >= 2
      invariant 0 <= lo <= hi <= a.Length && lo + hi == a.Length
      invariant forall k | 0 <= k < lo || hi <= k < a.Length :: a[k] == old(a[a.Length - 1 - k])
      invariant forall k | lo <= k < hi :: a[k] == old(a[k])
    {
      hi := hi - 1;
      a[lo], a[hi] := a[hi], a[lo];
      lo := lo + 1;
    }
  }
}
