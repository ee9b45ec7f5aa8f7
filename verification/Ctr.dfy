/**
 AES in counter mode (section 6.5 of NIST SP 800-38A) as a stream with a position, and the
 obfuscated2 key schedule over it. The AES block and SHA-256 are parameters.
 */
module Ctr {
  import opened ByteStrings
  import opened ModArith

  type Aes = (Bytes, Bytes) -> Block

  datatype Primitives = Primitives(aes: Aes, sha256: Bytes -> Digest)

  /** A counter block one further: the last byte goes up, and one that wraps carries into the byte before it. */
  function Incremented(b: Bytes): (r: Bytes)
    ensures |r| == |b|
  {
    if b == [] then []
    else
      var front, last := b[..|b| - 1], b[|b| - 1];
      if last == 255 then Incremented(front) + [0] else front + [last + 1]
  }

  /** The n-th counter block, counting from the IV. */
  function Counter(iv: Bytes, n: nat): (r: Bytes)
    ensures |r| == |iv|
  {
    if n == 0 then iv else Incremented(Counter(iv, n - 1))
  }

  /** Byte i of the key stream: the counter moves on every 16 bytes. */
  function KeyByte(aes: Aes, key: Bytes, iv: Bytes, i: nat): byte { aes(key, Counter(iv, i / 16))[i % 16] }

  function KeyStream(aes: Aes, key: Bytes, iv: Bytes): nat -> byte { (i: nat) => KeyByte(aes, key, iv, i) }

  lemma CarryValue(x: nat, m: nat, y: nat)
    requires m > 0 && y == (x + 1) % m
    ensures 256 * y == (256 * x + 256) % (256 * m)
  {
    var q := (x + 1) / m;
    assert 256 * x + 256 == (256 * m) * q + 256 * y by { assert x + 1 == m * q + y; }
    Remainder(q, 256 * y, 256 * m);
  }

  lemma CarriesOver(front: Bytes, next: Bytes)
    requires |next| == |front| && Nat(next) == (Nat(front) + 1) % Pow256(|front|)
    ensures Nat(next + [0]) == (Nat(front + [255]) + 1) % Pow256(|front| + 1)
  {
    NatSnoc(front, 255);
    NatSnoc(next, 0);
    CarryValue(Nat(front), Pow256(|front|), Nat(next));
  }

  lemma Below(v: nat, m: nat)
    requires v < m
    ensures v % m == v
  {
  }

  lemma GoesUp(front: Bytes, last: byte, next: byte)
    requires next as int == last as int + 1
    ensures Nat(front + [next]) == (Nat(front + [last]) + 1) % Pow256(|front| + 1)
  {
    OneMore(front, last, next);
    IsItsRemainder(front + [next]);
  }

  lemma OneMore(front: Bytes, last: byte, next: byte)
    requires next as int == last as int + 1
    ensures Nat(front + [next]) == Nat(front + [last]) + 1
  {
    NatSnoc(front, last);
    NatSnoc(front, next);
  }

  lemma IsItsRemainder(s: Bytes)
    ensures Nat(s) % Pow256(|s|) == Nat(s)
  {
    NatBound(s);
    Below(Nat(s), Pow256(|s|));
  }

  lemma {:induction false} IncrementedValue(b: Bytes)
    ensures Nat(Incremented(b)) == (Nat(b) + 1) % Pow256(|b|)
  {
    if b != [] {
      var front, last := b[..|b| - 1], b[|b| - 1];
      assert b == front + [last];
      if last == 255 {
        IncrementedValue(front);
        CarriesOver(front, Incremented(front));
      } else {
        Successor(last);
        GoesUp(front, last, last + 1);
      }
    }
  }

  lemma NextValue(v: nat, m: nat, w: nat, next: nat)
    requires m > 0 && w == v % m && next == (w + 1) % m
    ensures next == (v + 1) % m
  {
    AddMultiple(v % m + 1, v / m, m);
    assert v + 1 == v % m + 1 + m * (v / m);
  }

  lemma CounterStep(iv: Bytes, n: nat)
    ensures Nat(Counter(iv, n + 1)) == (Nat(Counter(iv, n)) + 1) % Pow256(|iv|)
  {
    IncrementedValue(Counter(iv, n));
  }

  /** Values that go up by one modulo m are the first of them plus their number. */
  lemma {:induction false} CountsUp(values: nat -> nat, v: nat, m: nat, n: nat)
    requires m > 0 && values(0) == v % m && forall k: nat :: values(k + 1) == (values(k) + 1) % m
    ensures values(n) == (v + n) % m
  {
    if n > 0 {
      CountsUp(values, v, m, n - 1);
      assert values(n - 1 + 1) == (values(n - 1) + 1) % m;
      NextValue(v + (n - 1), m, values(n - 1), values(n));
    }
  }

  /** A counter block is the sum of the IV and its number, in as many bytes. */
  lemma CounterValue(iv: Bytes, n: nat)
    ensures Nat(Counter(iv, n)) == (Nat(iv) + n) % Pow256(|iv|)
  {
    var values: nat -> nat := (k: nat) => Nat(Counter(iv, k));
    IsItsRemainder(iv);
    forall k: nat ensures values(k + 1) == (values(k) + 1) % Pow256(|iv|) { CounterStep(iv, k); }
    CountsUp(values, Nat(iv), Pow256(|iv|), n);
  }

  lemma CounterBytes(iv: Bytes, n: nat)
    ensures Counter(iv, n) == Fixed((Nat(iv) + n) % Pow256(|iv|), |iv|)
  {
    CounterValue(iv, n);
    FixedOfNat(Counter(iv, n));
  }

  lemma BlockOf(n: nat, j: nat)
    requires j < 16
    ensures (16 * n + j) / 16 == n && (16 * n + j) % 16 == j
  {
  }

  lemma KeyAt(aes: Aes, key: Bytes, iv: Bytes, n: nat, j: nat)
    requires j < 16
    ensures KeyStream(aes, key, iv)(16 * n + j) == aes(key, Counter(iv, n))[j]
  {
    BlockOf(n, j);
    KeyByteOf(aes, key, iv, 16 * n + j, n, j);
  }

  lemma KeyByteOf(aes: Aes, key: Bytes, iv: Bytes, i: nat, n: nat, j: nat)
    requires i / 16 == n && i % 16 == j
    ensures KeyByte(aes, key, iv, i) == aes(key, Counter(iv, n))[j]
  {
  }

  /**
   Block n of the key stream is the cipher of the IV plus n, as 128-bit big-endian numbers; so
   block 0 is the cipher of the IV itself, and the counter that reaches 2^128 goes on at 0.
   */
  lemma StreamIsCounterMode(aes: Aes, key: Bytes, iv: Bytes, n: nat, j: nat)
    requires |iv| == 16 && j < 16
    ensures KeyStream(aes, key, iv)(16 * n + j) == aes(key, Fixed((Nat(iv) + n) % Pow256(|iv|), |iv|))[j]
    ensures KeyStream(aes, key, iv)(j) == aes(key, iv)[j]
  {
    KeyAt(aes, key, iv, n, j);
    CounterBytes(iv, n);
    FirstBlock(aes, key, iv, j);
  }

  lemma FirstBlock(aes: Aes, key: Bytes, iv: Bytes, j: nat)
    requires j < 16
    ensures KeyStream(aes, key, iv)(j) == aes(key, iv)[j]
  {
    KeyAt(aes, key, iv, 0, j);
  }

  /** s, xored with the key stream from position pos on. */
  function Applied(stream: nat -> byte, pos: nat, s: Bytes): (r: Bytes)
    ensures |r| == |s|
    ensures forall i | 0 <= i < |s| :: r[i] == s[i] ^ stream(pos + i)
  {
    seq(|s|, i requires 0 <= i < |s| => s[i] ^ stream(pos + i))
  }

  /** Chunks processed one after another are the whole processed at once. */
  lemma ChunksJoin(stream: nat -> byte, pos: nat, s: Bytes, t: Bytes)
    ensures Applied(stream, pos, s + t) == Applied(stream, pos, s) + Applied(stream, pos + |s|, t)
  {
    forall i | |s| <= i < |s + t| ensures Applied(stream, pos, s + t)[i] == Applied(stream, pos + |s|, t)[i - |s|] {
      assert pos + i == pos + |s| + (i - |s|);
    }
  }

  lemma SliceOfApplied(stream: nat -> byte, pos: nat, s: Bytes, n: nat)
    requires n <= |s|
    ensures Applied(stream, pos, s)[..n] == Applied(stream, pos, s[..n])
    ensures Applied(stream, pos, s)[n..] == Applied(stream, pos + n, s[n..])
  {
    assert s == s[..n] + s[n..];
    ChunksJoin(stream, pos, s[..n], s[n..]);
  }

  lemma AppliedTwice(stream: nat -> byte, pos: nat, s: Bytes)
    ensures Applied(stream, pos, Applied(stream, pos, s)) == s
  {
    forall i | 0 <= i < |s| ensures Applied(stream, pos, Applied(stream, pos, s))[i] == s[i] {
      XorByte(s[i], stream(pos + i));
    }
  }

  class CtrStream {
    const stream: nat -> byte
    var position: nat

    constructor (aes: Aes, key: Bytes, iv: Bytes)
      requires |key| == 32 && |iv| == 16
      ensures stream == KeyStream(aes, key, iv) && position == 0
    {
      stream := KeyStream(aes, key, iv);
      position := 0;
    }

    /** Goes on from where the last call stopped. */
    method XorKeyStream(buf: array<byte>)
      modifies this, buf
      ensures buf[..] == Applied(stream, old(position), old(buf[..]))
      ensures position == old(position) + buf.Length
    {
      for i := 0 to buf.Length
        invariant position == old(position) + i
        invariant forall j | 0 <= j < i :: buf[j] == old(buf[j]) ^ stream(old(position) + j)
        invariant forall j | i <= j < buf.Length :: buf[j] == old(buf[j])
      {
        buf[i] := buf[i] ^ stream(position);
        position := position + 1;
      }
    }
  }

  // ---- obfuscated2 ----

  datatype Keys = Keys(encryptKey: Bytes, encryptIv: Bytes, decryptKey: Bytes, decryptIv: Bytes)

  /** The keys as the client names them; of a secret longer than 16 bytes only the first 16 count. */
  function ClientKeys(p: Primitives, init: Bytes, secret: Bytes): (k: Keys)
    requires |init| == 64 && (secret == [] || |secret| >= 16)
    ensures |k.encryptKey| == |k.decryptKey| == 32 && |k.encryptIv| == |k.decryptIv| == 16
  {
    var rev := Reversed(init[8..56]);
    var k := Keys(init[8..40], init[40..56], rev[..32], rev[32..]);
    if secret == [] then k
    else k.(encryptKey := p.sha256(k.encryptKey + secret[..16]), decryptKey := p.sha256(k.decryptKey + secret[..16]))
  }

  /** The client's receiving key and IV are the bytes 8 to 55 of its init read backwards, byte by byte. */
  lemma KeysByPosition(p: Primitives, init: Bytes, secret: Bytes)
    requires |init| == 64 && (secret == [] || |secret| >= 16)
    ensures
      var plain, k := ClientKeys(p, init, []), ClientKeys(p, init, secret);
      && (forall i | 0 <= i < 32 :: plain.encryptKey[i] == init[8 + i] && plain.decryptKey[i] == init[55 - i])
      && (forall i | 0 <= i < 16 :: k.encryptIv[i] == init[40 + i] && k.decryptIv[i] == init[23 - i])
      && (secret != [] ==>
            && k.encryptKey == p.sha256(init[8..40] + secret[..16])
            && k.decryptKey == p.sha256(plain.decryptKey + secret[..16]))
  {
  }

  method CreateObfuscated2Streams(p: Primitives, init: array<byte>, secret: Bytes) returns (encrypt: CtrStream, decrypt: CtrStream)
    requires init.Length == 64 && (secret == [] || |secret| >= 16)
    ensures fresh(encrypt) && fresh(decrypt) && encrypt != decrypt
    ensures encrypt.position == decrypt.position == 0
    ensures
      var k := ClientKeys(p, init[..], secret);
      encrypt.stream == KeyStream(p.aes, k.encryptKey, k.encryptIv) && decrypt.stream == KeyStream(p.aes, k.decryptKey, k.decryptIv)
  {
    var encryptKey, encryptIv := init[8..40], init[40..56];
    var rev := new byte[48](i requires 0 <= i < 48 reads init => if init.Length == 64 then init[8 + i] else 0);
    assert rev[..] == init[8..56];
    ReverseInPlace(rev);
    var decryptKey, decryptIv := rev[..32], rev[32..];
    if secret != [] {
      encryptKey := p.sha256(encryptKey + secret[..16]);
      decryptKey := p.sha256(decryptKey + secret[..16]);
    }
    assert init[..][8..56] == init[8..56] && init[..][8..40] == init[8..40] && init[..][40..56] == init[40..56];
    encrypt := new CtrStream(p.aes, encryptKey, encryptIv);
    decrypt := new CtrStream(p.aes, decryptKey, decryptIv);
  }

  datatype Metadata = Metadata(protocol: Bytes, dc: nat)

  /** What the server finds in the last eight bytes of the init. */
  function MetadataOf(p: Primitives, wire: Bytes, secret: Bytes): Metadata
    requires |wire| == 64 && (secret == [] || |secret| >= 16)
  {
    var k := ClientKeys(p, wire, secret);
    var plain := Applied(KeyStream(p.aes, k.encryptKey, k.encryptIv), 0, wire);
    Metadata(plain[56..60], LeVal(plain[60..62]))
  }

  lemma TwoBytes(s: Bytes)
    requires |s| == 2
    ensures LeVal(s) == s[0] as int + 256 * (s[1] as int)
  {
    assert LeVal(s[1..]) == s[1] as int + 256 * LeVal(s[1..][1..]);
    assert s[1..][1..] == [];
  }

  /** The server's side: its streams are the client's with the roles swapped. */
  method AcceptObfuscated2(p: Primitives, wire: array<byte>, secret: Bytes)
    returns (encrypt: CtrStream, decrypt: CtrStream, metadata: Metadata)
    requires wire.Length == 64 && (secret == [] || |secret| >= 16)
    ensures fresh(encrypt) && fresh(decrypt) && encrypt != decrypt
    ensures encrypt.position == 0 && decrypt.position == 64
    ensures
      var k := ClientKeys(p, wire[..], secret);
      decrypt.stream == KeyStream(p.aes, k.encryptKey, k.encryptIv) && encrypt.stream == KeyStream(p.aes, k.decryptKey, k.decryptIv)
    ensures metadata == MetadataOf(p, wire[..], secret)
  {
    decrypt, encrypt := CreateObfuscated2Streams(p, wire, secret);
    var decrypted := new byte[64](i requires 0 <= i < 64 reads wire => if wire.Length == 64 then wire[i] else 0);
    assert decrypted[..] == wire[..];
    decrypt.XorKeyStream(decrypted);
    TwoBytes(decrypted[60..62]);
    assert decrypted[56..60] == decrypted[..][56..60] && decrypted[60..62] == decrypted[..][60..62];
    metadata := Metadata(decrypted[56..60], decrypted[60] as int + 256 * (decrypted[61] as int));
  }

  /** The init a client sends: its last eight bytes are encrypted, at their own position in the stream. */
  function WireInit(p: Primitives, init: Bytes, secret: Bytes): (wire: Bytes)
    requires |init| == 64 && (secret == [] || |secret| >= 16)
    ensures |wire| == 64
  {
    var k := ClientKeys(p, init, secret);
    init[..56] + Applied(KeyStream(p.aes, k.encryptKey, k.encryptIv), 0, init)[56..]
  }

  lemma SameKeys(p: Primitives, init: Bytes, secret: Bytes)
    requires |init| == 64 && (secret == [] || |secret| >= 16)
    ensures ClientKeys(p, WireInit(p, init, secret), secret) == ClientKeys(p, init, secret)
  {
    var wire := WireInit(p, init, secret);
    assert wire[8..56] == init[8..56] && wire[8..40] == init[8..40] && wire[40..56] == init[40..56];
  }

  lemma TailDecrypts(stream: nat -> byte, init: Bytes, wire: Bytes)
    requires |init| == |wire| == 64 && wire[56..] == Applied(stream, 0, init)[56..]
    ensures Applied(stream, 0, wire)[56..] == init[56..]
  {
    SliceOfApplied(stream, 0, init, 56);
    SliceOfApplied(stream, 0, wire, 56);
    AppliedTwice(stream, 56, init[56..]);
  }

  /** Both sides derive the same keys, and the server sees the client's tag and dc. */
  lemma ServerSeesTag(p: Primitives, init: Bytes, secret: Bytes)
    requires |init| == 64 && (secret == [] || |secret| >= 16)
    ensures ClientKeys(p, WireInit(p, init, secret), secret) == ClientKeys(p, init, secret)
    ensures MetadataOf(p, WireInit(p, init, secret), secret) == Metadata(init[56..60], LeVal(init[60..62]))
  {
    var k, wire := ClientKeys(p, init, secret), WireInit(p, init, secret);
    SameKeys(p, init, secret);
    var stream := KeyStream(p.aes, k.encryptKey, k.encryptIv);
    TailDecrypts(stream, init, wire);
    var plain := Applied(stream, 0, wire);
    assert plain[56..60] == plain[56..][..4] && plain[60..62] == plain[56..][4..6];
    assert init[56..60] == init[56..][..4] && init[60..62] == init[56..][4..6];
  }
}
