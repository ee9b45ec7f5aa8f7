/**
 The connection objects below the codecs: the raw pipe, the transport that detection wraps
 around it, and detection itself.
 */
module Transports {
  import opened Wrappers
  import opened ByteStrings
  import opened Codecs
  import opened Ctr
  import opened Detection

  lemma JoinedSlices(s: Bytes, t: Bytes, k: nat, n: nat)
    requires k == (if n < |s| then n else |s|) && n <= |s + t|
    ensures (s + t)[..n] == s[..k] + t[..n - k] && (s + t)[n..] == s[k..] + t[n - k..]
  {
  }

  class Pipe {
    var incoming: Bytes
    var outgoing: Bytes

    constructor (incoming: Bytes)
      ensures this.incoming == incoming && outgoing == []
    {
      this.incoming := incoming;
      outgoing := [];
    }

    /** Fills the buffer, or fails without touching either. */
    method ReadExact(dst: array<byte>, from: nat, n: nat) returns (ok: bool)
      requires from + n <= dst.Length
      modifies this`incoming, dst
      ensures ok == (n <= |old(incoming)|)
      ensures ok ==> dst[..] == old(dst[..from]) + old(incoming)[..n] + old(dst[from + n..])
      ensures ok ==> incoming == old(incoming)[n..]
      ensures !ok ==> dst[..] == old(dst[..]) && incoming == old(incoming)
    {
      if n > |incoming| { return false; }
      for i := 0 to n
        invariant incoming == old(incoming)
        invariant forall j | from <= j < from + i :: dst[j] == incoming[j - from]
        invariant forall j | 0 <= j < from || from + i <= j < dst.Length :: dst[j] == old(dst[j])
      {
        dst[from + i] := incoming[i];
      }
      incoming := incoming[n..];
      return true;
    }

    method Write(bytes: Bytes)
      modifies this`outgoing
      ensures outgoing == old(outgoing) + bytes
    {
      outgoing := outgoing + bytes;
    }
  }

  /** What detection hands to a codec: the pipe, with bytes to replay or with the two streams. */
  class Transport {
    const pipe: Pipe
    const replay: array<byte>
    var replayPos: nat
    const decrypt: CtrStream?
    const encrypt: CtrStream?
    ghost const before: Bytes
    ghost var sent: Bytes

    ghost predicate Valid()
      reads this, pipe, encrypt
    {
      && replayPos <= replay.Length
      && (decrypt == null <==> encrypt == null)
      && (encrypt != null ==> encrypt != decrypt && replay.Length == 0 && encrypt.position == |sent|)
      && pipe.outgoing == before + Wire(sent)
    }

    ghost function Wire(bytes: Bytes): Bytes
      reads this
    {
      if encrypt != null then Applied(encrypt.stream, 0, bytes) else bytes
    }

    /** The plain bytes still to be read. */
    ghost function Incoming(): Bytes
      requires Valid()
      reads this, pipe, encrypt, replay, decrypt
    {
      if decrypt != null then Applied(decrypt.stream, decrypt.position, pipe.incoming)
      else replay[replayPos..] + pipe.incoming
    }

    constructor Plain(pipe: Pipe, replay: array<byte>)
      ensures Valid() && this.pipe == pipe && this.replay == replay && decrypt == null && replayPos == 0
      ensures sent == [] && before == pipe.outgoing
      ensures Incoming() == replay[..] + pipe.incoming
    {
      this.pipe, this.replay, replayPos := pipe, replay, 0;
      decrypt, encrypt, sent, before := null, null, [], pipe.outgoing;
      new;
      assert before + Wire(sent) == before;
    }

    constructor Obfuscated(pipe: Pipe, decrypt: CtrStream, encrypt: CtrStream)
      requires encrypt != decrypt && encrypt.position == 0
      ensures Valid() && this.pipe == pipe && this.decrypt == decrypt && this.encrypt == encrypt
      ensures sent == [] && before == pipe.outgoing
      ensures fresh(replay)
      ensures Incoming() == Applied(decrypt.stream, decrypt.position, pipe.incoming)
    {
      this.pipe, replay, replayPos := pipe, new byte[0], 0;
      this.decrypt, this.encrypt, sent, before := decrypt, encrypt, [], pipe.outgoing;
      new;
      assert before + Wire(sent) == before;
    }

    /** The replayed bytes first, then the pipe's. */
    method ReadReplayed(n: nat) returns (r: Result<Bytes, CodecError>)
      requires Valid() && decrypt == null
      modifies this`replayPos, pipe`incoming
      ensures Valid() && sent == old(sent)
      ensures n <= |old(Incoming())| ==> r == Ok(old(Incoming())[..n]) && Incoming() == old(Incoming())[n..]
      ensures n > |old(Incoming())| ==> r == Err(EndOfStream)
    {
      var dst := new byte[n];
      var fromReplay := if n < replay.Length - replayPos then n else replay.Length - replayPos;
      for i := 0 to fromReplay
        invariant replayPos == old(replayPos) && pipe.incoming == old(pipe.incoming)
        invariant forall j | 0 <= j < i :: dst[j] == replay[replayPos + j]
      {
        dst[i] := replay[replayPos + i];
      }
      assert dst[..fromReplay] == replay[replayPos..][..fromReplay];
      replayPos := replayPos + fromReplay;
      var ok := pipe.ReadExact(dst, fromReplay, n - fromReplay);
      ghost var held, inc := old(replay[replayPos..]), old(pipe.incoming);
      assert held + inc == old(Incoming());
      if !ok { return Err(EndOfStream); }
      JoinedSlices(held, inc, fromReplay, n);
      assert dst[..] == held[..fromReplay] + inc[..n - fromReplay];
      assert replay[replayPos..] == held[fromReplay..];
      return Ok(dst[..]);
    }

    method ReadDeobfuscated(n: nat) returns (r: Result<Bytes, CodecError>)
      requires Valid() && decrypt != null
      modifies pipe`incoming, decrypt
      ensures Valid() && sent == old(sent)
      ensures n <= |old(Incoming())| ==> r == Ok(old(Incoming())[..n]) && Incoming() == old(Incoming())[n..]
      ensures n > |old(Incoming())| ==> r == Err(EndOfStream)
    {
      var dst := new byte[n];
      var ok := pipe.ReadExact(dst, 0, n);
      if !ok { return Err(EndOfStream); }
      SliceOfApplied(decrypt.stream, decrypt.position, old(pipe.incoming), n);
      assert dst[..] == old(pipe.incoming)[..n];
      decrypt.XorKeyStream(dst);
      return Ok(dst[..]);
    }

    /** The next n plain bytes. */
    method ReadExact(n: nat) returns (r: Result<Bytes, CodecError>)
      requires Valid()
      modifies this`replayPos, pipe`incoming, decrypt
      ensures Valid() && sent == old(sent)
      ensures n <= |old(Incoming())| ==> r == Ok(old(Incoming())[..n]) && Incoming() == old(Incoming())[n..]
      ensures n > |old(Incoming())| ==> r == Err(EndOfStream)
    {
      if decrypt != null { r := ReadDeobfuscated(n); } else { r := ReadReplayed(n); }
    }

    method Write(bytes: Bytes)
      requires Valid()
      modifies this`sent, pipe`outgoing, encrypt
      ensures Valid() && sent == old(sent) + bytes
    {
      var out := bytes;
      if encrypt != null {
        var buf := new byte[|bytes|](i requires 0 <= i < |bytes| => bytes[i]);
        assert buf[..] == bytes;
        encrypt.XorKeyStream(buf);
        out := buf[..];
        ChunksJoin(encrypt.stream, 0, sent, bytes);
      }
      assert before + Wire(sent + bytes) == before + Wire(sent) + out;
      pipe.Write(out);
      sent := sent + bytes;
    }
  }

  lemma ZeroWordBytes(s: Bytes)
    requires |s| == 4
    ensures s == Zeros(4) <==> s[0] == 0 && s[1] == 0 && s[2] == 0 && s[3] == 0
  {
  }

  /** Reads just enough of the pipe to tell the transports apart, and wraps what it read. */
  method DetectTransport(p: Primitives, pipe: Pipe, secret: Bytes) returns (r: Result<Detected, DetectError>, transport: Transport?)
    requires SecretOk(secret)
    modifies pipe`incoming
    ensures r == Detect(p, old(pipe.incoming), secret)
    ensures r.Ok? ==>
      && transport != null && fresh(transport) && fresh(transport.replay) && transport.pipe == pipe
      && (transport.decrypt != null ==> fresh(transport.decrypt)) && (transport.encrypt != null ==> fresh(transport.encrypt))
      && transport.Valid() && transport.sent == [] && transport.before == pipe.outgoing
      && var mode := r.value.mode;
      && (mode.Direct? ==> mode.skip <= |old(pipe.incoming)|) && (mode.Obfuscated? ==> |old(pipe.incoming)| >= 64)
      && transport.Incoming() == PlainInput(p, old(pipe.incoming), secret, mode)
      && forall sent :: transport.Wire(sent) == WireOutput(p, old(pipe.incoming), secret, mode, sent)
  {
    ghost var all := pipe.incoming;
    var none := new byte[0];
    var prefix := new byte[8](_ => 0);
    transport := null;
    var ok := pipe.ReadExact(prefix, 0, 1);
    if !ok { return Err(ShortRead), null; }
    assert prefix[0] == all[0];
    if prefix[0] == 0xEF {
      transport := new Transport.Plain(pipe, none);
      return Ok(Detected(Abridged, Direct(1))), transport;
    }
    ok := pipe.ReadExact(prefix, 1, 3);
    if !ok { return Err(ShortRead), null; }
    assert prefix[..4] == all[..4] && pipe.incoming == all[4..];
    if prefix[..4] == INTERMEDIATE_START {
      transport := new Transport.Plain(pipe, none);
      return Ok(Detected(Intermediate, Direct(4))), transport;
    }
    if prefix[..4] == PADDED_START {
      transport := new Transport.Plain(pipe, none);
      return Ok(Detected(Padded, Direct(4))), transport;
    }
    if IsReservedPrefix(prefix[..4]) { return Err(ReservedPrefix), null; }
    r, transport := DetectByTail(p, pipe, prefix, secret, all);
  }

  /** What the result and the transport are when the first four bytes say nothing. */
  ghost predicate Tailed(p: Primitives, all: Bytes, secret: Bytes, r: Result<Detected, DetectError>)
    requires SecretOk(secret)
  {
    if |all| < 8 then r == Err(ShortRead)
    else if all[4..8] == Zeros(4) then r == Ok(Detected(Full, Replaying))
    else if |all| < 64 then r == Err(ShortRead)
    else
      var framing := ByTag(MetadataOf(p, all[..64], secret).protocol);
      r == if framing.Err? then Err(framing.error) else Ok(Detected(framing.value, Obfuscated))
  }

  lemma FirstEight(prefix: Bytes, all: Bytes)
    requires |prefix| == 8 && |all| >= 8 && prefix == all[..4] + all[4..][..4]
    ensures prefix == all[..8] && prefix[4..8] == all[4..8] && all[4..][4..] == all[8..]
  {
    assert all[4..][..4] == all[4..8];
  }

  /** Full: the eight bytes looked at are replayed. */
  method WrapFull(p: Primitives, pipe: Pipe, prefix: array<byte>, secret: Bytes, ghost all: Bytes) returns (transport: Transport)
    requires SecretOk(secret) && |all| >= 8 && prefix[..] == all[..8] && pipe.incoming == all[8..]
    ensures fresh(transport) && transport.replay == prefix && transport.pipe == pipe && transport.decrypt == null && transport.encrypt == null
    ensures transport.Valid() && transport.sent == [] && transport.before == pipe.outgoing
    ensures transport.Incoming() == PlainInput(p, all, secret, Replaying)
    ensures forall sent :: transport.Wire(sent) == WireOutput(p, all, secret, Replaying, sent)
  {
    assert all[..8] + all[8..] == all;
    transport := new Transport.Plain(pipe, prefix);
  }

  /** Obfuscated2: the init is accepted, and the rest goes through its streams. */
  method WrapObfuscated(p: Primitives, pipe: Pipe, init: array<byte>, secret: Bytes, ghost all: Bytes) returns (transport: Transport, tag: Bytes)
    requires SecretOk(secret) && |all| >= 64 && init.Length == 64 && init[..] == all[..64] && pipe.incoming == all[64..]
    ensures tag == MetadataOf(p, all[..64], secret).protocol
    ensures fresh(transport) && fresh(transport.replay) && transport.pipe == pipe
    ensures transport.decrypt != null && fresh(transport.decrypt) && transport.encrypt != null && fresh(transport.encrypt)
    ensures transport.Valid() && transport.sent == [] && transport.before == pipe.outgoing
    ensures transport.Incoming() == PlainInput(p, all, secret, Obfuscated)
    ensures forall sent :: transport.Wire(sent) == WireOutput(p, all, secret, Obfuscated, sent)
  {
    var encrypt, decrypt, metadata := AcceptObfuscated2(p, init, secret);
    transport := new Transport.Obfuscated(pipe, decrypt, encrypt);
    tag := metadata.protocol;
  }

  lemma FirstSixtyFour(init: Bytes, prefix: Bytes, all: Bytes)
    requires |prefix| == 8 && |all| >= 64 && prefix == all[..8] && init == prefix + all[8..][..56]
    ensures init == all[..64] && all[8..][56..] == all[64..]
  {
    assert all[8..][..56] == all[8..64];
  }

  method DetectByTail(p: Primitives, pipe: Pipe, prefix: array<byte>, secret: Bytes, ghost all: Bytes)
    returns (r: Result<Detected, DetectError>, transport: Transport?)
    requires SecretOk(secret) && prefix.Length == 8 && |all| >= 4 && prefix[..4] == all[..4] && pipe.incoming == all[4..]
    modifies pipe`incoming, prefix
    ensures Tailed(p, all, secret, r)
    ensures r.Ok? ==>
      && transport != null && fresh(transport) && (transport.replay == prefix || fresh(transport.replay)) && transport.pipe == pipe
      && (transport.decrypt != null ==> fresh(transport.decrypt)) && (transport.encrypt != null ==> fresh(transport.encrypt))
      && transport.Valid() && transport.sent == [] && transport.before == pipe.outgoing
      && (r.value.mode.Obfuscated? ==> |all| >= 64) && !r.value.mode.Direct?
      && transport.Incoming() == PlainInput(p, all, secret, r.value.mode)
      && forall sent :: transport.Wire(sent) == WireOutput(p, all, secret, r.value.mode, sent)
  {
    var ok := pipe.ReadExact(prefix, 4, 4);
    if !ok { return Err(ShortRead), null; }
    FirstEight(prefix[..], all);
    ZeroWordBytes(prefix[4..8]);
    if prefix[4] == 0 && prefix[5] == 0 && prefix[6] == 0 && prefix[7] == 0 {
      transport := WrapFull(p, pipe, prefix, secret, all);
      return Ok(Detected(Full, Replaying)), transport;
    }
    r, transport := DetectObfuscated2(p, pipe, prefix, secret, all);
  }

  method DetectObfuscated2(p: Primitives, pipe: Pipe, prefix: array<byte>, secret: Bytes, ghost all: Bytes)
    returns (r: Result<Detected, DetectError>, transport: Transport?)
    requires SecretOk(secret) && prefix.Length == 8 && |all| >= 8 && prefix[..] == all[..8] && pipe.incoming == all[8..]
    modifies pipe`incoming
    ensures |all| < 64 ==> r == Err(ShortRead)
    ensures |all| >= 64 ==>
      && var framing := ByTag(MetadataOf(p, all[..64], secret).protocol);
      r == if framing.Err? then Err(framing.error) else Ok(Detected(framing.value, Obfuscated))
    ensures r.Ok? ==>
      && |all| >= 64 && transport != null && fresh(transport) && fresh(transport.replay) && transport.pipe == pipe
      && transport.decrypt != null && fresh(transport.decrypt) && transport.encrypt != null && fresh(transport.encrypt)
      && transport.Valid() && transport.sent == [] && transport.before == pipe.outgoing
      && transport.Incoming() == PlainInput(p, all, secret, Obfuscated)
      && forall sent :: transport.Wire(sent) == WireOutput(p, all, secret, Obfuscated, sent)
  {
    var init := new byte[64](i requires 0 <= i < 64 reads prefix => if i < prefix.Length then prefix[i] else 0);
    assert init[..8] == prefix[..] && init[64..] == [];
    var ok := pipe.ReadExact(init, 8, 56);
    if !ok { return Err(ShortRead), null; }
    FirstSixtyFour(init[..], prefix[..], all);
    var tag;
    transport, tag := WrapObfuscated(p, pipe, init, secret, all);
    if tag == ABRIDGED_TAG { return Ok(Detected(Abridged, Obfuscated)), transport; }
    if tag == INTERMEDIATE_START { return Ok(Detected(Intermediate, Obfuscated)), transport; }
    if tag == PADDED_START { return Ok(Detected(Padded, Obfuscated)), transport; }
    return Err(UnknownTag), null;
  }
}
