/**
 The four codecs as objects that write and read frames through a transport. Each method does
 what the functions of Codecs say, one call of the transport after another.
 */
module CodecObjects {
  import opened Wrappers
  import opened ByteStrings
  import opened Codecs
  import Crc32
  import opened Transports

  method ReadU32Le(t: Transport) returns (r: Result<nat, CodecError>)
    requires t.Valid()
    modifies t`replayPos, t.pipe`incoming, t.decrypt
    ensures t.Valid() && t.sent == old(t.sent)
    ensures |old(t.Incoming())| < 4 ==> r == Err(EndOfStream)
    ensures |old(t.Incoming())| >= 4 ==> r == Ok(LeVal(old(t.Incoming())[..4])) && t.Incoming() == old(t.Incoming())[4..]
  {
    var b := t.ReadExact(4);
    r := if b.Err? then Err(b.error) else Ok(LeVal(b.value));
  }

  method WriteIntermediateFrame(t: Transport, payload: Bytes)
    requires t.Valid()
    modifies t`sent, t.pipe`outgoing, t.encrypt
    ensures t.Valid() && t.sent == old(t.sent) + (Le(|payload| % 0x1_0000_0000, 4) + payload)
  {
    ghost var sent := t.sent;
    var length := Le(|payload| % 0x1_0000_0000, 4);
    t.Write(length);
    t.Write(payload);
    Associates(sent, length, payload);
  }

  /** The declared number of bytes after the length field. */
  function Declared(stream: Bytes): Result<Taken, CodecError> {
    var length := ReadWord(stream);
    if length.Err? then Err(length.error) else Take(length.value.1, length.value.0)
  }

  lemma DeclaredCases(stream: Bytes, n: nat)
    requires |stream| >= 4 && LeVal(stream[..4]) == n
    ensures
      Declared(stream) ==
      if !LengthOk(n) then Err(InvalidLength(n))
      else if n > |stream| - 4 then Err(EndOfStream) else Ok(Taken(stream[4..][..n], stream[4..][n..]))
  {
  }

  method ReadDeclared(t: Transport) returns (r: Result<Bytes, CodecError>)
    requires t.Valid()
    modifies t`replayPos, t.pipe`incoming, t.decrypt
    ensures t.Valid() && t.sent == old(t.sent)
    ensures
      var taken := Declared(old(t.Incoming()));
      if taken.Err? then r == Err(taken.error) else r == Ok(taken.value.got) && t.Incoming() == taken.value.rest
  {
    ghost var stream := t.Incoming();
    var n := ReadU32Le(t);
    if n.Err? { return Err(n.error); }
    DeclaredCases(stream, n.value);
    if !LengthOk(n.value) { return Err(InvalidLength(n.value)); }
    r := t.ReadExact(n.value);
  }

  method ReadIntermediateFrame(t: Transport, padding: bool) returns (r: Result<Bytes, CodecError>)
    requires t.Valid()
    modifies t`replayPos, t.pipe`incoming, t.decrypt
    ensures t.Valid() && t.sent == old(t.sent)
    ensures
      var taken := Declared(old(t.Incoming()));
      if taken.Err? then r == Err(taken.error)
      else
        && r == Ok(if padding then taken.value.got[..|taken.value.got| - |taken.value.got| % 4] else taken.value.got)
        && t.Incoming() == taken.value.rest
  {
    var payload := ReadDeclared(t);
    if payload.Ok? && padding {
      var pad := |payload.value| % 4;
      return Ok(payload.value[..|payload.value| - pad]);
    }
    return payload;
  }

  /** A payload of four bytes is an error from the other side. */
  function CheckProtocolError(payload: Bytes): Result<Bytes, CodecError> {
    var checked := Checked(payload, []);
    if checked.Err? then Err(checked.error) else Ok(payload)
  }

  lemma AbridgedCases(all: Bytes, n: nat, rest: Bytes)
    requires Codecs.ReadLength(all) == Ok((n, rest))
    ensures Codecs.Read(Abridged, all, 0) == if n > |rest| then Err(EndOfStream) else Checked(rest[..n], rest[n..])
  {
  }

  lemma WholeFrame(all: Bytes, n: nat, body: Bytes)
    requires 4 <= n <= |all| && LeVal(all[..4]) == n && body == all[4..][..n - 4]
    ensures Le(n, 4) + body == all[..n] && all[4..][n - 4..] == all[n..]
  {
    LeOfLeVal(all[..4]);
  }

  lemma FrameSlices(all: Bytes, n: nat, frame: Bytes)
    requires 12 <= n <= |all| && frame == all[..n]
    ensures frame[4..8] == all[4..8] && frame[n - 4..n] == all[n - 4..n] && frame[..n - 4] == all[..n - 4]
    ensures frame[8..n - 4] == all[8..n - 4]
  {
  }

  lemma FullCases(all: Bytes, seqNo: nat, n: nat, frame: Bytes)
    requires 12 <= n <= |all| && LengthOk(n) && LeVal(all[..4]) == n && frame == all[..n]
    ensures
      ReadFull(all, seqNo) ==
      if AsInt32(ReadWord32(frame[4..8])) != seqNo then Err(SeqMismatch)
      else if LeVal(frame[n - 4..n]) != Crc32.Crc(frame[..n - 4]) as int then Err(CrcMismatch)
      else Checked(frame[8..n - 4], all[n..])
  {
    FrameSlices(all, n, frame);
    assert ReadWord(all) == Ok((n, all[4..]));
  }

  class AbridgedCodec {
    constructor () {}

    method Write(t: Transport, payload: Bytes) returns (r: Result<(), CodecError>)
      requires t.Valid()
      modifies t`sent, t.pipe`outgoing, t.encrypt
      ensures t.Valid()
      ensures
        var w := Codecs.Write(Abridged, payload, Zeros(4), 0);
        if w.Err? then r == Err(w.error) && t.sent == old(t.sent) else r == Ok(()) && t.sent == old(t.sent) + w.value
    {
      if !LengthOk(|payload|) { return Err(InvalidLength(|payload|)); }
      if |payload| % 4 != 0 { return Err(NotAligned); }
      var words := |payload| / 4;
      ghost var sent := t.sent;
      var header := if words < 0x7F then [Octet(words)] else [0x7F] + Le(words, 3);
      t.Write(header);
      t.Write(payload);
      Associates(sent, header, payload);
      return Ok(());
    }

    method ReadLength(t: Transport) returns (r: Result<nat, CodecError>)
      requires t.Valid()
      modifies t`replayPos, t.pipe`incoming, t.decrypt
      ensures t.Valid() && t.sent == old(t.sent)
      ensures
        var length := Codecs.ReadLength(old(t.Incoming()));
        if length.Err? then r == Err(length.error) else r == Ok(length.value.0) && t.Incoming() == length.value.1
    {
      var first := t.ReadExact(1);
      if first.Err? { return Err(EndOfStream); }
      var words := first.value[0] as int % 0x80;
      if words == 0 { return Err(InvalidLength(0)); }
      if words < 0x7F { return Ok(words * 4); }
      var ext := t.ReadExact(3);
      if ext.Err? { return Err(EndOfStream); }
      words := LeVal(ext.value);
      if words < 0x7F { return Err(InvalidLength(words * 4)); }
      if !LengthOk(words * 4) { return Err(InvalidLength(words * 4)); }
      return Ok(words * 4);
    }

    method Read(t: Transport) returns (r: Result<Bytes, CodecError>)
      requires t.Valid()
      modifies t`replayPos, t.pipe`incoming, t.decrypt
      ensures t.Valid() && t.sent == old(t.sent)
      ensures
        var f := Codecs.Read(Abridged, old(t.Incoming()), 0);
        if f.Err? then r == Err(f.error) else r == Ok(f.value.got) && t.Incoming() == f.value.rest
    {
      ghost var all := t.Incoming();
      var n := ReadLength(t);
      if n.Err? { return Err(n.error); }
      AbridgedCases(all, n.value, t.Incoming());
      var payload := t.ReadExact(n.value);
      if payload.Err? { return payload; }
      return CheckProtocolError(payload.value);
    }
  }

  class IntermediateCodec {
    constructor () {}

    method Write(t: Transport, payload: Bytes) returns (r: Result<(), CodecError>)
      requires t.Valid()
      modifies t`sent, t.pipe`outgoing, t.encrypt
      ensures t.Valid()
      ensures
        var w := Codecs.Write(Intermediate, payload, Zeros(4), 0);
        if w.Err? then r == Err(w.error) && t.sent == old(t.sent) else r == Ok(()) && t.sent == old(t.sent) + w.value
    {
      if !LengthOk(|payload|) { return Err(InvalidLength(|payload|)); }
      if |payload| % 4 != 0 { return Err(NotAligned); }
      WriteIntermediateFrame(t, payload);
      return Ok(());
    }

    method Read(t: Transport) returns (r: Result<Bytes, CodecError>)
      requires t.Valid()
      modifies t`replayPos, t.pipe`incoming, t.decrypt
      ensures t.Valid() && t.sent == old(t.sent)
      ensures
        var f := Codecs.Read(Intermediate, old(t.Incoming()), 0);
        if f.Err? then r == Err(f.error) else r == Ok(f.value.got) && t.Incoming() == f.value.rest
    {
      var payload := ReadIntermediateFrame(t, false);
      if payload.Err? { return payload; }
      return CheckProtocolError(payload.value);
    }
  }

  class PaddedIntermediateCodec {
    constructor () {}

    /** randomTail is what the random source fills four bytes with. */
    method Write(t: Transport, payload: Bytes, randomTail: Bytes) returns (r: Result<(), CodecError>)
      requires t.Valid() && |randomTail| == 4
      modifies t`sent, t.pipe`outgoing, t.encrypt
      ensures t.Valid()
      ensures
        var w := Codecs.Write(Padded, payload, randomTail, 0);
        if w.Err? then r == Err(w.error) && t.sent == old(t.sent) else r == Ok(()) && t.sent == old(t.sent) + w.value
    {
      if !LengthOk(|payload|) { return Err(InvalidLength(|payload|)); }
      if |payload| % 4 != 0 { return Err(NotAligned); }
      var padLength := payload[|payload| - 1] as int % 4;
      WriteIntermediateFrame(t, payload + randomTail[..padLength]);
      return Ok(());
    }

    method Read(t: Transport) returns (r: Result<Bytes, CodecError>)
      requires t.Valid()
      modifies t`replayPos, t.pipe`incoming, t.decrypt
      ensures t.Valid() && t.sent == old(t.sent)
      ensures
        var f := Codecs.Read(Padded, old(t.Incoming()), 0);
        if f.Err? then r == Err(f.error) else r == Ok(f.value.got) && t.Incoming() == f.value.rest
    {
      var payload := ReadIntermediateFrame(t, true);
      if payload.Err? { return payload; }
      return CheckProtocolError(payload.value);
    }
  }

  class FullCodec {
    var writeSeqNo: nat
    var readSeqNo: nat

    constructor ()
      ensures writeSeqNo == readSeqNo == 0
    {
      writeSeqNo, readSeqNo := 0, 0;
    }

    method Write(t: Transport, payload: Bytes) returns (r: Result<(), CodecError>)
      requires t.Valid()
      modifies this`writeSeqNo, t`sent, t.pipe`outgoing, t.encrypt
      ensures t.Valid()
      ensures
        var w := Codecs.Write(Full, payload, Zeros(4), old(writeSeqNo));
        if w.Err? then r == Err(w.error) && t.sent == old(t.sent) && writeSeqNo == old(writeSeqNo)
        else r == Ok(()) && t.sent == old(t.sent) + w.value && writeSeqNo == old(writeSeqNo) + 1
    {
      if !LengthOk(|payload|) { return Err(InvalidLength(|payload|)); }
      var seqNo := writeSeqNo;
      writeSeqNo := writeSeqNo + 1;
      var frame := Le(4 + 4 + |payload| + 4, 4);
      frame := frame + Le(seqNo % 0x1_0000_0000, 4);
      frame := frame + payload;
      var crc := Crc32.Crc32Ieee(frame);
      CrcBound(crc);
      frame := frame + Le(crc as int, 4);
      t.Write(frame);
      return Ok(());
    }

    /** The whole frame, its length field included. */
    method ReadFrame(t: Transport) returns (r: Result<Bytes, CodecError>)
      requires t.Valid()
      modifies t`replayPos, t.pipe`incoming, t.decrypt
      ensures t.Valid() && t.sent == old(t.sent)
      ensures
        var all, length := old(t.Incoming()), ReadWord(old(t.Incoming()));
        if length.Err? then r == Err(length.error)
        else if length.value.0 < 12 then r == Err(InvalidLength(length.value.0))
        else if |all| < length.value.0 then r == Err(EndOfStream)
        else r == Ok(all[..length.value.0]) && t.Incoming() == all[length.value.0..]
    {
      ghost var all := t.Incoming();
      var length := ReadU32Le(t);
      if length.Err? { return Err(EndOfStream); }
      var n := length.value;
      if !LengthOk(n) { return Err(InvalidLength(n)); }
      if n < 12 { return Err(InvalidLength(n)); }
      var got := t.ReadExact(n - 4);
      if got.Err? { return got; }
      WholeFrame(all, n, got.value);
      return Ok(Le(n, 4) + got.value);
    }

    /** The counter moves once the frame has been read, even when the frame is then refused. */
    method Read(t: Transport) returns (r: Result<Bytes, CodecError>)
      requires t.Valid()
      modifies this`readSeqNo, t`replayPos, t.pipe`incoming, t.decrypt
      ensures t.Valid() && t.sent == old(t.sent)
      ensures
        var f := Codecs.Read(Full, old(t.Incoming()), old(readSeqNo));
        if f.Err? then r == Err(f.error) else r == Ok(f.value.got) && t.Incoming() == f.value.rest && readSeqNo == old(readSeqNo) + 1
      ensures
        var all, length := old(t.Incoming()), ReadWord(old(t.Incoming()));
        if length.Ok? && 12 <= length.value.0 <= |all| then t.Incoming() == all[length.value.0..] && readSeqNo == old(readSeqNo) + 1
        else readSeqNo == old(readSeqNo)
    {
      ghost var all := t.Incoming();
      var whole := ReadFrame(t);
      if whole.Err? { return whole; }
      var frame := whole.value;
      var n := |frame|;
      FullCases(all, readSeqNo, n, frame);
      var expected := readSeqNo;
      readSeqNo := readSeqNo + 1;
      if AsInt32(ReadWord32(frame[4..8])) != expected { return Err(SeqMismatch); }
      var received := LeVal(frame[n - 4..n]);
      var computed := Crc32.Crc32Ieee(frame[..n - 4]);
      if received != computed as int { return Err(CrcMismatch); }
      return CheckProtocolError(frame[8..n - 4]);
    }
  }
}
