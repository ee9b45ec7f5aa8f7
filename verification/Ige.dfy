/**
 IGE chaining over a block cipher. The cipher itself is a parameter: only that decryption of a
 block undoes its encryption is ever used.
 */
module Ige {
  import opened Wrappers
  import opened ByteStrings

  datatype Cipher = Cipher(encrypt: (Bytes, Block) -> Block, decrypt: (Bytes, Block) -> Block)

  datatype IgeError = BadIv | BadLength | BadKey

  /** decrypt undoes encrypt, and the reverse, under every key. */
  ghost predicate IsPermutation(c: Cipher) {
    forall k: Bytes, b: Block :: c.decrypt(k, c.encrypt(k, b)) == b && c.encrypt(k, c.decrypt(k, b)) == b
  }

  function XorBlocks(a: Block, b: Block): Block { Xor(a, b) }

  /** Chaining from the previous ciphertext block c and plaintext block m. */
  function Encrypted(f: Block -> Block, c: Block, m: Block, data: Bytes): (r: Bytes)
    requires |data| % 16 == 0
    ensures |r| == |data|
    decreases |data|
  {
    if data == [] then []
    else
      assert |data| >= 16;
      var p: Block := data[..16];
      var y := XorBlocks(f(XorBlocks(p, c)), m);
      y + Encrypted(f, y, p, data[16..])
  }

  function Decrypted(g: Block -> Block, c: Block, m: Block, data: Bytes): (r: Bytes)
    requires |data| % 16 == 0
    ensures |r| == |data|
    decreases |data|
  {
    if data == [] then []
    else
      assert |data| >= 16;
      var y: Block := data[..16];
      var p := XorBlocks(g(XorBlocks(y, m)), c);
      p + Decrypted(g, y, p, data[16..])
  }

  // ---- Undoing ----

  lemma BlockTrip(f: Block -> Block, g: Block -> Block, p: Block, c: Block, m: Block)
    requires g(f(XorBlocks(p, c))) == XorBlocks(p, c)
    ensures var y := XorBlocks(f(XorBlocks(p, c)), m); XorBlocks(g(XorBlocks(y, m)), c) == p
  {
    XorTwice(f(XorBlocks(p, c)), m);
    XorTwice(p, c);
  }

  lemma {:induction false} DecryptUndoesEncrypt(f: Block -> Block, g: Block -> Block, c: Block, m: Block, data: Bytes)
    requires |data| % 16 == 0 && forall b: Block :: g(f(b)) == b
    ensures Decrypted(g, c, m, Encrypted(f, c, m, data)) == data
    decreases |data|
  {
    if data != [] {
      assert |data| >= 16;
      var p: Block := data[..16];
      var y: Block := XorBlocks(f(XorBlocks(p, c)), m);
      var rest := Encrypted(f, y, p, data[16..]);
      assert (y + rest)[..16] == y && (y + rest)[16..] == rest;
      BlockTrip(f, g, p, c, m);
      DecryptUndoesEncrypt(f, g, y, p, data[16..]);
    }
  }

  lemma {:induction false} EncryptUndoesDecrypt(f: Block -> Block, g: Block -> Block, c: Block, m: Block, data: Bytes)
    requires |data| % 16 == 0 && forall b: Block :: f(g(b)) == b
    ensures Encrypted(f, c, m, Decrypted(g, c, m, data)) == data
    decreases |data|
  {
    if data != [] {
      assert |data| >= 16;
      var y: Block := data[..16];
      var p: Block := XorBlocks(g(XorBlocks(y, m)), c);
      var rest := Decrypted(g, y, p, data[16..]);
      assert (p + rest)[..16] == p && (p + rest)[16..] == rest;
      BlockTrip(g, f, y, m, c);
      EncryptUndoesDecrypt(f, g, y, p, data[16..]);
    }
  }

  // ---- Encrypting in parts ----

  /** The last block of s, or d when there is none. */
  function LastBlock(s: Bytes, d: Block): Block
    requires |s| % 16 == 0
  {
    if s == [] then d else s[|s| - 16..]
  }

  lemma EncryptedFirst(f: Block -> Block, c: Block, m: Block, p: Block, rest: Bytes)
    requires |rest| % 16 == 0
    ensures var y := XorBlocks(f(XorBlocks(p, c)), m); Encrypted(f, c, m, p + rest) == y + Encrypted(f, y, p, rest)
  {
    assert (p + rest)[..16] == p && (p + rest)[16..] == rest;
  }

  lemma LastOfMore(p: Block, rest: Bytes, d: Block)
    requires |rest| % 16 == 0
    ensures LastBlock(p + rest, d) == LastBlock(rest, p)
  {
    if rest == [] {
      assert p + rest == p && p[0..] == p;
    } else {
      assert |rest| >= 16;
      assert (p + rest)[|rest|..] == rest[|rest| - 16..];
    }
  }

  /** A concatenation encrypts like its parts, the second starting from the last blocks of the first. */
  lemma {:induction false} PartsChain(f: Block -> Block, c: Block, m: Block, s: Bytes, t: Bytes)
    requires |s| % 16 == 0 && |t| % 16 == 0
    ensures
      var first := Encrypted(f, c, m, s);
      Encrypted(f, c, m, s + t) == first + Encrypted(f, LastBlock(first, c), LastBlock(s, m), t)
    decreases |s|
  {
    if s == [] {
      assert s + t == t;
    } else {
      assert |s| >= 16;
      var p: Block, s' := s[..16], s[16..];
      var y := XorBlocks(f(XorBlocks(p, c)), m);
      assert s == p + s' && s + t == p + (s' + t);
      PartsChain(f, y, p, s', t);
      EncryptedFirst(f, c, m, p, s');
      EncryptedFirst(f, c, m, p, s' + t);
      var rest := Encrypted(f, y, p, s');
      LastOfMore(y, rest, c);
      LastOfMore(p, s', m);
      Associates(y, rest, Encrypted(f, LastBlock(rest, y), LastBlock(s', p), t));
    }
  }

  // ---- The loops ----

  predicate KeyLengthOk(key: Bytes) { |key| == 16 || |key| == 24 || |key| == 32 }

  function CheckArgs(key: Bytes, iv: Bytes, data: Bytes): Result<(), IgeError> {
    if |iv| != 32 then Err(BadIv) else if |data| % 16 != 0 then Err(BadLength) else if !KeyLengthOk(key) then Err(BadKey) else Ok(())
  }

  function Encryptor(cipher: Cipher, key: Bytes): Block -> Block { (b: Block) => cipher.encrypt(key, b) }

  function Decryptor(cipher: Cipher, key: Bytes): Block -> Block { (b: Block) => cipher.decrypt(key, b) }

  function EncryptWith(cipher: Cipher, key: Bytes, iv: Bytes, data: Bytes): Result<Bytes, IgeError> {
    var checked := CheckArgs(key, iv, data);
    if checked.Err? then Err(checked.error) else Ok(Encrypted(Encryptor(cipher, key), iv[..16], iv[16..], data))
  }

  function DecryptWith(cipher: Cipher, key: Bytes, iv: Bytes, data: Bytes): Result<Bytes, IgeError> {
    var checked := CheckArgs(key, iv, data);
    if checked.Err? then Err(checked.error) else Ok(Decrypted(Decryptor(cipher, key), iv[..16], iv[16..], data))
  }

  method XorBlock(dst: array<byte>, o: nat, a: Bytes, b: Bytes)
    requires o + 16 <= dst.Length && |a| == |b| == 16
    modifies dst
    ensures dst[..o] == old(dst[..o]) && dst[o..o + 16] == Xor(a, b) && dst[o + 16..] == old(dst[o + 16..])
    ensures dst[..o + 16] == old(dst[..o]) + Xor(a, b)
  {
    for i := 0 to 16
      invariant forall j | o <= j < o + i :: dst[j] == a[j - o] ^ b[j - o]
      invariant forall j | 0 <= j < o || o + i <= j < dst.Length :: dst[j] == old(dst[j])
    {
      dst[o + i] := a[i] ^ b[i];
    }
  }

  lemma BlockFits(o: nat, n: nat)
    requires o % 16 == 0 && n % 16 == 0 && o < n
    ensures o + 16 <= n && (o + 16) % 16 == 0
  {
  }

  lemma EncryptStep(f: Block -> Block, c: Block, m: Block, data: Bytes, o: nat, done: Bytes, whole: Bytes, p: Block, y: Block)
    requires |data| % 16 == 0 && o % 16 == 0 && o + 16 <= |data| && whole == done + Encrypted(f, c, m, data[o..])
    requires p == data[o..o + 16] && y == XorBlocks(f(XorBlocks(p, c)), m)
    ensures whole == (done + y) + Encrypted(f, y, p, data[o + 16..])
  {
    assert data[o..][..16] == data[o..o + 16] && data[o..][16..] == data[o + 16..];
    Associates(done, y, Encrypted(f, y, p, data[o + 16..]));
  }

  lemma DecryptStep(g: Block -> Block, c: Block, m: Block, data: Bytes, o: nat, done: Bytes, whole: Bytes, p: Block, y: Block)
    requires |data| % 16 == 0 && o % 16 == 0 && o + 16 <= |data| && whole == done + Decrypted(g, c, m, data[o..])
    requires y == data[o..o + 16] && p == XorBlocks(g(XorBlocks(y, m)), c)
    ensures whole == (done + p) + Decrypted(g, y, p, data[o + 16..])
  {
    assert data[o..][..16] == data[o..o + 16] && data[o..][16..] == data[o + 16..];
    Associates(done, p, Decrypted(g, y, p, data[o + 16..]));
  }

  method EncryptBlock(f: Block -> Block, c: Block, m: Block, p: Block, out: array<byte>, o: nat) returns (y: Block)
    requires o + 16 <= out.Length
    modifies out
    ensures y == XorBlocks(f(XorBlocks(p, c)), m) && out[..o + 16] == old(out[..o]) + y
  {
    var block := f(XorBlocks(p, c));
    XorBlock(out, o, block, m);
    y := XorBlocks(block, m);
  }

  method DecryptBlock(g: Block -> Block, c: Block, m: Block, y: Block, out: array<byte>, o: nat) returns (p: Block)
    requires o + 16 <= out.Length
    modifies out
    ensures p == XorBlocks(g(XorBlocks(y, m)), c) && out[..o + 16] == old(out[..o]) + p
  {
    var block := g(XorBlocks(y, m));
    XorBlock(out, o, block, c);
    p := XorBlocks(block, c);
  }

  method EncryptBlocks(f: Block -> Block, iv: Bytes, data: Bytes) returns (out: array<byte>)
    requires |iv| == 32 && |data| % 16 == 0
    ensures out[..] == Encrypted(f, iv[..16], iv[16..], data)
  {
    out := new byte[|data|](_ => 0);
    var c: Block, m: Block := iv[..16], iv[16..];
    ghost var whole := Encrypted(f, c, m, data);
    var o := 0;
    assert data[0..] == data && out[..0] == [];
    while o < |data|
      invariant 0 <= o <= |data| && o % 16 == 0
      invariant whole == out[..o] + Encrypted(f, c, m, data[o..])
    {
      ghost var done := out[..o];
      BlockFits(o, |data|);
      var p: Block := data[o..o + 16];
      var y := EncryptBlock(f, c, m, p, out, o);
      EncryptStep(f, c, m, data, o, done, whole, p, y);
      c, m := y, p;
      o := o + 16;
    }
    assert out[..o] == out[..] && data[o..] == [];
  }

  method IgeEncrypt(cipher: Cipher, key: Bytes, iv: Bytes, data: Bytes) returns (r: Result<Bytes, IgeError>)
    ensures r == EncryptWith(cipher, key, iv, data)
  {
    var checked := CheckArgs(key, iv, data);
    if checked.Err? { return Err(checked.error); }
    var out := EncryptBlocks(Encryptor(cipher, key), iv, data);
    return Ok(out[..]);
  }

  method DecryptBlocks(g: Block -> Block, iv: Bytes, data: Bytes) returns (out: array<byte>)
    requires |iv| == 32 && |data| % 16 == 0
    ensures out[..] == Decrypted(g, iv[..16], iv[16..], data)
  {
    out := new byte[|data|](_ => 0);
    var c: Block, m: Block := iv[..16], iv[16..];
    ghost var whole := Decrypted(g, c, m, data);
    var o := 0;
    assert data[0..] == data && out[..0] == [];
    while o < |data|
      invariant 0 <= o <= |data| && o % 16 == 0
      invariant whole == out[..o] + Decrypted(g, c, m, data[o..])
    {
      ghost var done := out[..o];
      BlockFits(o, |data|);
      var y: Block := data[o..o + 16];
      var p := DecryptBlock(g, c, m, y, out, o);
      DecryptStep(g, c, m, data, o, done, whole, p, y);
      c, m := y, p;
      o := o + 16;
    }
    assert out[..o] == out[..] && data[o..] == [];
  }

  method IgeDecrypt(cipher: Cipher, key: Bytes, iv: Bytes, data: Bytes) returns (r: Result<Bytes, IgeError>)
    ensures r == DecryptWith(cipher, key, iv, data)
  {
    var checked := CheckArgs(key, iv, data);
    if checked.Err? { return Err(checked.error); }
    var out := DecryptBlocks(Decryptor(cipher, key), iv, data);
    return Ok(out[..]);
  }

  /** Both round trips, with the checks both directions make. */
  lemma IgeTrip(cipher: Cipher, key: Bytes, iv: Bytes, data: Bytes)
    requires IsPermutation(cipher)
    ensures EncryptWith(cipher, key, iv, data).Ok? == DecryptWith(cipher, key, iv, data).Ok?
    ensures EncryptWith(cipher, key, iv, data).Ok? <==> |iv| == 32 && |data| % 16 == 0 && (|key| == 16 || |key| == 24 || |key| == 32)
    ensures EncryptWith(cipher, key, iv, data).Ok? ==>
      && DecryptWith(cipher, key, iv, EncryptWith(cipher, key, iv, data).value) == Ok(data)
      && EncryptWith(cipher, key, iv, DecryptWith(cipher, key, iv, data).value) == Ok(data)
  {
    if CheckArgs(key, iv, data).Ok? {
      var f, g := Encryptor(cipher, key), Decryptor(cipher, key);
      DecryptUndoesEncrypt(f, g, iv[..16], iv[16..], data);
      EncryptUndoesDecrypt(f, g, iv[..16], iv[16..], data);
    }
  }
}
