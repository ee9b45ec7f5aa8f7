/**
 The CRC-32 of the full transport (section 8 of RFC 1952): the table-driven loop against the
 bit-by-bit definition.
 */
module Crc32 {
  import opened ByteStrings

  // ---- Bit by bit ----

  function Step(c: bv32): bv32 {
    if c & 1 == 1 then 0xEDB88320 ^ (c >> 1) else c >> 1
  }

  function Iterate(f: bv32 -> bv32, c: bv32, n: nat): bv32
    decreases n, c
  {
    if n == 0 then c else f(Iterate(f, c, n - 1))
  }

  function Steps(c: bv32, n: nat): bv32 { Iterate(Step, c, n) }

  /** The register after one more byte: mix it in, then shift eight times. */
  function AfterByte(c: bv32, b: byte): bv32 { Steps(c ^ (b as bv32), 8) }

  function Register(s: Bytes): bv32 {
    if s == [] then 0xFFFFFFFF else AfterByte(Register(s[..|s| - 1]), s[|s| - 1])
  }

  function Crc(s: Bytes): bv32 { Register(s) ^ 0xFFFFFFFF }

  lemma EightTimes(f: bv32 -> bv32, c: bv32)
    ensures Iterate(f, c, 8) == f(f(f(f(f(f(f(f(c))))))))
  {
    OneMore(f, c, 1);
    OneMore(f, c, 2);
    OneMore(f, c, 3);
    OneMore(f, c, 4);
    OneMore(f, c, 5);
    OneMore(f, c, 6);
    OneMore(f, c, 7);
    OneMore(f, c, 8);
  }

  /** The CRC-32 of nothing, and of the letter a. */
  lemma CheckValues()
    ensures Crc([]) == 0 && Crc([0x61]) == 0xE8B7BE43
  {
    var c: bv32 := 0xFFFFFFFF ^ 0x61;
    assert c == 0xFFFFFF9E;
    assert Step(0xFFFFFF9E) == 0x7FFFFFCF;
    assert Step(0x7FFFFFCF) == 0xD2477CC7;
    assert Step(0xD2477CC7) == 0x849B3D43;
    assert Step(0x849B3D43) == 0xAFF51D81;
    assert Step(0xAFF51D81) == 0xBA420DE0;
    assert Step(0xBA420DE0) == 0x5D2106F0;
    assert Step(0x5D2106F0) == 0x2E908378;
    assert Step(0x2E908378) == 0x174841BC;
    EightTimes(Step, c);
    var s: Bytes := [0x61];
    assert s[..0] == [];
  }

  // ---- The step is linear and injective ----

  lemma ShiftXor(x: bv32, y: bv32)
    ensures (x ^ y) >> 1 == (x >> 1) ^ (y >> 1)
  {
  }

  lemma LowBitXor(x: bv32, y: bv32)
    ensures ((x ^ y) & 1 == 1) == ((x & 1 == 1) != (y & 1 == 1))
  {
  }

  lemma XorRegroups(p: bv32, x: bv32, y: bv32)
    ensures (p ^ x) ^ (p ^ y) == x ^ y && (p ^ x) ^ y == p ^ (x ^ y) && x ^ (p ^ y) == p ^ (x ^ y)
  {
  }

  lemma StepLinear(x: bv32, y: bv32)
    ensures Step(x ^ y) == Step(x) ^ Step(y)
  {
    ShiftXor(x, y);
    LowBitXor(x, y);
    XorRegroups(0xEDB88320, x >> 1, y >> 1);
  }

  function Mix(x: bv32, y: bv32): bv32 { x ^ y }

  ghost predicate Linear(f: bv32 -> bv32, mix: (bv32, bv32) -> bv32) {
    forall x, y {:trigger f(mix(x, y))} :: f(mix(x, y)) == mix(f(x), f(y))
  }

  ghost predicate Injective(f: bv32 -> bv32) { forall x, y :: f(x) == f(y) ==> x == y }

  lemma OneMore(f: bv32 -> bv32, c: bv32, n: nat)
    requires n > 0
    ensures Iterate(f, c, n) == f(Iterate(f, c, n - 1))
  {
  }

  lemma LinearAt(f: bv32 -> bv32, mix: (bv32, bv32) -> bv32, x: bv32, y: bv32, z: bv32)
    requires Linear(f, mix) && z == mix(x, y)
    ensures f(z) == mix(f(x), f(y))
  {
    assert f(mix(x, y)) == mix(f(x), f(y));
  }

  lemma {:induction false} IterateLinear(f: bv32 -> bv32, mix: (bv32, bv32) -> bv32, x: bv32, y: bv32, n: nat)
    requires Linear(f, mix)
    ensures Iterate(f, mix(x, y), n) == mix(Iterate(f, x, n), Iterate(f, y, n))
  {
    if n > 0 {
      IterateLinear(f, mix, x, y, n - 1);
      OneMore(f, mix(x, y), n);
      OneMore(f, x, n);
      OneMore(f, y, n);
      LinearAt(f, mix, Iterate(f, x, n - 1), Iterate(f, y, n - 1), Iterate(f, mix(x, y), n - 1));
    }
  }

  lemma {:induction false} IterateInjective(f: bv32 -> bv32, x: bv32, y: bv32, n: nat)
    requires Injective(f) && Iterate(f, x, n) == Iterate(f, y, n)
    ensures x == y
  {
    if n > 0 { IterateInjective(f, x, y, n - 1); }
  }

  lemma StepInjective(x: bv32, y: bv32)
    requires Step(x) == Step(y)
    ensures x == y
  {
  }

  lemma StepIsLinear()
    ensures Linear(Step, Mix)
  {
    forall x, y ensures Step(Mix(x, y)) == Mix(Step(x), Step(y)) { StepLinear(x, y); }
  }

  lemma StepIsInjective()
    ensures Injective(Step)
  {
    forall x, y | Step(x) == Step(y) ensures x == y { StepInjective(x, y); }
  }

  lemma SameStart(x: bv32, y: bv32, n: nat)
    requires Steps(x, n) == Steps(y, n)
    ensures x == y
  {
    StepIsInjective();
    IterateInjective(Step, x, y, n);
  }

  // ---- Table driven ----

  lemma ShiftsOut(h: bv32)
    requires h & 0xFF == 0
    ensures Step(Step(Step(Step(Step(Step(Step(Step(h)))))))) == h >> 8
  {
  }

  lemma EightSteps(f: bv32 -> bv32, c: bv32)
    ensures Iterate(f, c, 8) == f(f(f(f(f(f(f(f(c))))))))
  {
    assert Iterate(f, c, 2) == f(Iterate(f, c, 1)) == f(f(c));
    assert Iterate(f, c, 4) == f(Iterate(f, c, 3)) == f(f(f(f(c))));
    assert Iterate(f, c, 6) == f(Iterate(f, c, 5)) == f(f(f(f(f(f(c))))));
    assert Iterate(f, c, 8) == f(Iterate(f, c, 7));
  }

  lemma ZeroLowByte(h: bv32)
    requires h & 0xFF == 0
    ensures Steps(h, 8) == h >> 8
  {
    EightSteps(Step, h);
    ShiftsOut(h);
  }

  lemma LowHigh(x: bv32)
    ensures x == (x & 0xFF) ^ (x & 0xFFFF_FF00) && (x & 0xFFFF_FF00) & 0xFF == 0 && (x & 0xFFFF_FF00) >> 8 == x >> 8
  {
  }

  lemma SplitIterate(f: bv32 -> bv32, mix: (bv32, bv32) -> bv32, x: bv32, low: bv32, high: bv32, shifted: bv32, n: nat)
    requires Linear(f, mix) && x == mix(low, high) && Iterate(f, high, n) == shifted
    ensures Iterate(f, x, n) == mix(Iterate(f, low, n), shifted)
  {
    IterateLinear(f, mix, low, high, n);
  }

  lemma SplitSteps(x: bv32, low: bv32, high: bv32, shifted: bv32)
    requires x == Mix(low, high) && Steps(high, 8) == shifted
    ensures Steps(x, 8) == Mix(Steps(low, 8), shifted)
  {
    StepIsLinear();
    SplitIterate(Step, Mix, x, low, high, shifted, 8);
  }

  /** Eight steps only look the low byte up and shift the rest. */
  lemma TableStep(x: bv32)
    ensures Steps(x, 8) == Mix(Steps(x & 0xFF, 8), x >> 8)
  {
    LowHigh(x);
    ZeroLowByte(x & 0xFFFF_FF00);
    SplitSteps(x, x & 0xFF, x & 0xFFFF_FF00, x >> 8);
  }

  lemma ByteIsLow(c: bv32, b: byte, x: bv32)
    requires x == c ^ (b as bv32)
    ensures x >> 8 == c >> 8
  {
  }

  lemma IntTrip(x: bv32)
    ensures (x as int) as bv32 == x
  {
  }

  lemma LowByteBound(x: bv32)
    ensures 0 <= (x & 0xFF) as int < 256
  {
  }

  predicate IsTable(t: seq<bv32>) {
    |t| == 256 && forall k | 0 <= k < 256 :: t[k] == Steps(k as bv32, 8)
  }

  method Table() returns (t: array<bv32>)
    ensures IsTable(t[..])
  {
    t := new bv32[256](_ => 0);
    for i := 0 to 256
      invariant forall k | 0 <= k < i :: t[k] == Steps(k as bv32, 8)
    {
      var c := i as bv32;
      for k := 0 to 8
        invariant c == Steps(i as bv32, k)
      {
        c := if c & 1 == 1 then 0xEDB88320 ^ (c >> 1) else c >> 1;
      }
      t[i] := c;
    }
  }

  lemma Entry(t: seq<bv32>, low: bv32, k: int)
    requires IsTable(t) && k == low as int && 0 <= k < 256
    ensures t[k] == Steps(low, 8)
  {
    IntTrip(low);
  }

  lemma LookUp(t: seq<bv32>, x: bv32)
    requires IsTable(t)
    ensures 0 <= (x & 0xFF) as int < 256 && Mix(t[(x & 0xFF) as int], x >> 8) == Steps(x, 8)
  {
    LowByteBound(x);
    Entry(t, x & 0xFF, (x & 0xFF) as int);
    TableStep(x);
  }

  lemma RegisterNext(data: Bytes, i: nat)
    requires i < |data|
    ensures Register(data[..i + 1]) == AfterByte(Register(data[..i]), data[i])
  {
    assert data[..i + 1][..i] == data[..i];
  }

  lemma StepsOf(c: bv32, b: byte, x: bv32)
    requires x == c ^ (b as bv32)
    ensures AfterByte(c, b) == Steps(x, 8)
  {
  }

  lemma ByTable(t: seq<bv32>, c: bv32, b: byte, x: bv32)
    requires IsTable(t) && x == c ^ (b as bv32)
    ensures 0 <= (x & 0xFF) as int < 256 && Mix(t[(x & 0xFF) as int], x >> 8) == AfterByte(c, b)
  {
    StepsOf(c, b, x);
    LookUp(t, x);
  }

  /** One round of the loop. */
  method Update(table: array<bv32>, crc: bv32, b: byte) returns (r: bv32)
    requires IsTable(table[..])
    ensures r == AfterByte(crc, b)
  {
    var x := crc ^ (b as bv32);
    ByTable(table[..], crc, b, x);
    ByteIsLow(crc, b, x);
    r := table[(x & 0xFF) as int] ^ (crc >> 8);
  }

  method Crc32Ieee(data: Bytes) returns (r: bv32)
    ensures r == Crc(data)
  {
    var table := Table();
    var crc: bv32 := 0xFFFFFFFF;
    for i := 0 to |data|
      invariant crc == Register(data[..i])
      invariant IsTable(table[..])
    {
      RegisterNext(data, i);
      crc := Update(table, crc, data[i]);
    }
    assert data[..|data|] == data;
    r := crc ^ 0xFFFFFFFF;
  }

  // ---- What the CRC detects ----

  lemma ByteInjective(c: bv32, a: byte, b: byte)
    requires AfterByte(c, a) == AfterByte(c, b)
    ensures a == b
  {
    SameStart(c ^ (a as bv32), c ^ (b as bv32), 8);
    XorByteInjective(c, a, b);
  }

  lemma XorByteInjective(c: bv32, a: byte, b: byte)
    requires c ^ (a as bv32) == c ^ (b as bv32)
    ensures a == b
  {
  }

  lemma XorRegisterInjective(c: bv32, d: bv32, b: bv32)
    requires c ^ b == d ^ b
    ensures c == d
  {
  }

  lemma IterateXorInjective(f: bv32 -> bv32, c: bv32, d: bv32, b: bv32, n: nat)
    requires Injective(f) && Iterate(f, c ^ b, n) == Iterate(f, d ^ b, n)
    ensures c == d
  {
    IterateInjective(f, c ^ b, d ^ b, n);
    XorRegisterInjective(c, d, b);
  }

  lemma RegisterInjective(c: bv32, d: bv32, b: byte)
    requires AfterByte(c, b) == AfterByte(d, b)
    ensures c == d
  {
    StepIsInjective();
    IterateXorInjective(Step, c, d, b as bv32, 8);
  }

  /** Two equally long strings that differ in exactly one byte leave different registers. */
  lemma {:induction false} OneByteTells(s: Bytes, i: nat, b: byte)
    requires i < |s| && b != s[i]
    ensures Register(s[i := b]) != Register(s)
  {
    var n, t := |s| - 1, s[i := b];
    if Register(t) == Register(s) {
      if i == n {
        assert t[..n] == s[..n];
        ByteInjective(Register(s[..n]), b, s[n]);
      } else {
        assert t[..n] == s[..n][i := b];
        RegisterInjective(Register(t[..n]), Register(s[..n]), s[n]);
        OneByteTells(s[..n], i, b);
      }
    }
  }

  lemma XorOnes(x: bv32, y: bv32)
    requires x ^ 0xFFFFFFFF == y ^ 0xFFFFFFFF
    ensures x == y
  {
  }

  lemma OneByteChangesCrc(s: Bytes, i: nat, b: byte)
    requires i < |s| && b != s[i]
    ensures Crc(s[i := b]) != Crc(s)
  {
    OneByteTells(s, i, b);
    if Crc(s[i := b]) == Crc(s) { XorOnes(Register(s[i := b]), Register(s)); }
  }
}
