/**
 The four framings, as functions from payloads to frames and from streams to payloads.
 */
module Codecs {
  import opened Wrappers
  import opened ByteStrings
  import Crc32

  datatype Framing = Abridged | Intermediate | Padded | Full

  datatype CodecError =
    | InvalidLength(n: nat) | NotAligned | HeaderMismatch | ProtocolCode(code: Int32) | SeqMismatch | CrcMismatch | EndOfStream

  const MAX_MESSAGE_SIZE: nat := 0x100_0000

  predicate LengthOk(n: nat) { 0 < n <= MAX_MESSAGE_SIZE }

  // ---- Writing ----

  function AbridgedHeader(words: nat): Bytes {
    if words < 0x7F then [Octet(words)] else [0x7F] + Le(words, 3)
  }

  /** The padding is chosen by the payload's last byte, not by the random tail. */
  function PadLength(payload: Bytes): nat { if payload == [] then 0 else (payload[|payload| - 1] as int) % 4 }

  function FullBody(payload: Bytes, seqNo: nat): Bytes {
    Le(12 + |payload|, 4) + Le(seqNo % 0x1_0000_0000, 4) + payload
  }

  function FullFrame(payload: Bytes, seqNo: nat): Bytes {
    FullBody(payload, seqNo) + Le(Crc32.Crc(FullBody(payload, seqNo)) as int, 4)
  }

  predicate Writable(f: Framing, payload: Bytes) {
    LengthOk(|payload|) && (f.Full? || |payload| % 4 == 0)
  }

  /** The frame of a payload; tail is the four random bytes and seqNo the counter of Full. */
  function Frame(f: Framing, payload: Bytes, tail: Bytes, seqNo: nat): Bytes
    requires |tail| == 4
  {
    match f
    case Abridged => AbridgedHeader(|payload| / 4) + payload
    case Intermediate => Le(|payload| % 0x1_0000_0000, 4) + payload
    case Padded =>
      var framed := payload + tail[..PadLength(payload)];
      Le(|framed| % 0x1_0000_0000, 4) + framed
    case Full => FullFrame(payload, seqNo)
  }

  function Write(f: Framing, payload: Bytes, tail: Bytes, seqNo: nat): Result<Bytes, CodecError>
    requires |tail| == 4
  {
    if !LengthOk(|payload|) then Err(InvalidLength(|payload|))
    else if !f.Full? && |payload| % 4 != 0 then Err(NotAligned)
    else Ok(Frame(f, payload, tail, seqNo))
  }

  // ---- Reading ----

  datatype Taken = Taken(got: Bytes, rest: Bytes)

  function Take(stream: Bytes, n: nat): Result<Taken, CodecError> {
    if n > |stream| then Err(EndOfStream) else Ok(Taken(stream[..n], stream[n..]))
  }

  function ReadLength(stream: Bytes): Result<(nat, Bytes), CodecError> {
    if stream == [] then Err(EndOfStream)
    else
      var words, rest := stream[0] as int % 0x80, stream[1..];
      if words == 0 then Err(InvalidLength(0))
      else if words < 0x7F then Ok((words * 4, rest))
      else if |rest| < 3 then Err(EndOfStream)
      else
        var ext := LeVal(rest[..3]);
        if ext < 0x7F || !LengthOk(ext * 4) then Err(InvalidLength(ext * 4)) else Ok((ext * 4, rest[3..]))
  }

  function ReadWord(stream: Bytes): Result<(nat, Bytes), CodecError> {
    if |stream| < 4 then Err(EndOfStream)
    else
      var n := LeVal(stream[..4]);
      if !LengthOk(n) then Err(InvalidLength(n)) else Ok((n, stream[4..]))
  }

  /** A frame of exactly four bytes is an error code. */
  function Checked(payload: Bytes, rest: Bytes): Result<Taken, CodecError> {
    if |payload| == 4 then Err(ProtocolCode(Negated(AsInt32(ReadWord32(payload))))) else Ok(Taken(payload, rest))
  }

  /** Negation on 32 bits. */
  function Negated(v: Int32): Int32 { if v == -0x8000_0000 then v else -v }

  function ReadFull(stream: Bytes, seqNo: nat): Result<Taken, CodecError> {
    var length := ReadWord(stream);
    if length.Err? then Err(length.error)
    else if length.value.0 < 12 then Err(InvalidLength(length.value.0))
    else
      var n := length.value.0;
      if |stream| < n then Err(EndOfStream)
      else if AsInt32(ReadWord32(stream[4..8])) != seqNo then Err(SeqMismatch)
      else if LeVal(stream[n - 4..n]) != Crc32.Crc(stream[..n - 4]) as int then Err(CrcMismatch)
      else Checked(stream[8..n - 4], stream[n..])
  }

  function Read(f: Framing, stream: Bytes, seqNo: nat): Result<Taken, CodecError> {
    if f.Full? then ReadFull(stream, seqNo)
    else
      var length := if f.Abridged? then ReadLength(stream) else ReadWord(stream);
      if length.Err? then Err(length.error)
      else
        var taken := Take(length.value.1, length.value.0);
        if taken.Err? then taken
        else
          var got := taken.value.got;
          Checked(if f.Padded? then got[..|got| - |got| % 4] else got, taken.value.rest)
  }

  // ---- One frame ----

  function FramedLength(f: Framing, payload: Bytes): nat {
    match f
    case Padded => |payload| + PadLength(payload)
    case Full => 12 + |payload|
    case _ => |payload|
  }

  /** What a caller can check before writing: the other side will be able to read the frame. */
  predicate Carries(f: Framing, payload: Bytes, seqNo: nat) {
    |payload| != 4 && FramedLength(f, payload) <= MAX_MESSAGE_SIZE && (f.Full? ==> seqNo < 0x8000_0000)
  }

  lemma LengthField(n: nat, s: Bytes)
    requires n < 0x1_0000_0000
    ensures n % 0x1_0000_0000 == n
    ensures (Le(n, 4) + s)[..4] == Le(n, 4) && (Le(n, 4) + s)[4..] == s && LeVal(Le(n, 4)) == n
  {
    Pow256Values();
    LeValOfLe(n, 4);
  }

  lemma WordTrip(n: nat, s: Bytes)
    requires n < 0x1_0000_0000
    ensures ReadWord(Le(n, 4) + s) == if LengthOk(n) then Ok((n, s)) else Err(InvalidLength(n))
  {
    LengthField(n, s);
  }

  lemma AbridgedTrip(payload: Bytes, rest: Bytes)
    requires LengthOk(|payload|) && |payload| % 4 == 0
    ensures ReadLength(AbridgedHeader(|payload| / 4) + payload + rest) == Ok((|payload|, payload + rest))
  {
    var words := |payload| / 4;
    assert AbridgedHeader(words) + payload + rest == AbridgedHeader(words) + (payload + rest);
    HeaderTrip(words, payload + rest);
  }

  lemma HeaderTrip(words: nat, rest: Bytes)
    requires LengthOk(4 * words)
    ensures ReadLength(AbridgedHeader(words) + rest) == Ok((4 * words, rest))
  {
    if words < 0x7F {
      assert AbridgedHeader(words) + rest == [Octet(words)] + rest;
    } else {
      ExtendedHeader(words, rest);
    }
  }

  lemma ExtendedHeader(words: nat, rest: Bytes)
    requires 0x7F <= words < 0x100_0000
    ensures
      var stream := AbridgedHeader(words) + rest;
      |stream| >= 4 && stream[0] == 0x7F && LeVal(stream[1..][..3]) == words && stream[1..][3..] == rest
  {
    var stream := AbridgedHeader(words) + rest;
    assert stream[1..] == Le(words, 3) + rest;
    assert stream[1..][..3] == Le(words, 3) && stream[1..][3..] == rest;
    Pow256Values();
    LeValOfLe(words, 3);
  }

  lemma PlainTrip(payload: Bytes, rest: Bytes)
    requires |payload| < 0x1_0000_0000
    ensures ReadWord(Le(|payload| % 0x1_0000_0000, 4) + payload + rest) ==
            if LengthOk(|payload|) then Ok((|payload|, payload + rest)) else Err(InvalidLength(|payload|))
  {
    LengthField(|payload|, []);
    WordTrip(|payload|, payload + rest);
    assert Le(|payload|, 4) + payload + rest == Le(|payload|, 4) + (payload + rest);
  }

  lemma TakeBack(payload: Bytes, rest: Bytes)
    ensures Take(payload + rest, |payload|) == Ok(Taken(payload, rest))
  {
    assert (payload + rest)[..|payload|] == payload && (payload + rest)[|payload|..] == rest;
  }

  /** Where the fields of a full frame are. */
  lemma FullFields(payload: Bytes, rest: Bytes, seqNo: nat)
    ensures
      var stream, n := FullFrame(payload, seqNo) + rest, 12 + |payload|;
      && |FullFrame(payload, seqNo)| == n
      && stream[..4] == Le(n, 4) && stream[4..8] == Le(seqNo % 0x1_0000_0000, 4) && stream[8..n - 4] == payload
      && stream[..n - 4] == FullBody(payload, seqNo) && stream[n..] == rest
      && stream[n - 4..n] == Le(Crc32.Crc(FullBody(payload, seqNo)) as int, 4)
  {
  }

  lemma CrcBound(c: bv32)
    ensures 0 <= c as int < 0x1_0000_0000
  {
  }

  lemma SeqField(seqNo: nat)
    ensures AsInt32(ReadWord32(Le(seqNo % 0x1_0000_0000, 4))) == seqNo <==> seqNo < 0x8000_0000
  {
    Pow256Values();
    LeValOfLe(seqNo % 0x1_0000_0000, 4);
  }

  /** A stream that starts with a whole frame is read by its number alone. */
  lemma FullRead(stream: Bytes, n: nat, seqNo: nat, payload: Bytes, rest: Bytes)
    requires 12 <= n <= MAX_MESSAGE_SIZE && |stream| >= n && LeVal(stream[..4]) == n
    requires LeVal(stream[n - 4..n]) == Crc32.Crc(stream[..n - 4]) as int
    requires stream[8..n - 4] == payload && stream[n..] == rest
    ensures ReadFull(stream, seqNo) ==
            if AsInt32(ReadWord32(stream[4..8])) != seqNo then Err(SeqMismatch) else Checked(payload, rest)
  {
  }

  lemma FullTrip(payload: Bytes, rest: Bytes, seqNo: nat)
    requires LengthOk(|payload|)
    ensures ReadFull(FullFrame(payload, seqNo) + rest, seqNo) ==
            if 12 + |payload| > MAX_MESSAGE_SIZE then Err(InvalidLength(12 + |payload|))
            else if seqNo >= 0x8000_0000 then Err(SeqMismatch)
            else Checked(payload, rest)
  {
    var stream, n := FullFrame(payload, seqNo) + rest, 12 + |payload|;
    var body := FullBody(payload, seqNo);
    FullFields(payload, rest, seqNo);
    LengthField(n, []);
    SeqField(seqNo);
    CrcBound(Crc32.Crc(body));
    LengthField(Crc32.Crc(body) as int, []);
    if n <= MAX_MESSAGE_SIZE { FullRead(stream, n, seqNo, payload, rest); }
  }

  lemma PaddedTrip(payload: Bytes, tail: Bytes, rest: Bytes)
    requires LengthOk(|payload|) && |payload| % 4 == 0 && |tail| == 4
    ensures Read(Padded, Frame(Padded, payload, tail, 0) + rest, 0) ==
            if |payload| + PadLength(payload) > MAX_MESSAGE_SIZE then Err(InvalidLength(|payload| + PadLength(payload)))
            else Checked(payload, rest)
  {
    var extra := tail[..PadLength(payload)];
    StripsBack(payload, extra);
    PaddedReads(payload + extra, rest);
  }

  lemma StripsBack(payload: Bytes, extra: Bytes)
    requires |payload| % 4 == 0 && |extra| < 4
    ensures var framed := payload + extra; framed[..|framed| - |framed| % 4] == payload
  {
    assert |payload + extra| % 4 == |extra|;
  }

  /** What is over a multiple of four is dropped. */
  lemma PaddedReads(framed: Bytes, rest: Bytes)
    requires 0 < |framed| < 0x1_0000_0000
    ensures Read(Padded, Le(|framed| % 0x1_0000_0000, 4) + framed + rest, 0) ==
            if |framed| > MAX_MESSAGE_SIZE then Err(InvalidLength(|framed|)) else Checked(framed[..|framed| - |framed| % 4], rest)
  {
    PlainTrip(framed, rest);
    TakeBack(framed, rest);
    PaddedReadsFrom(Le(|framed| % 0x1_0000_0000, 4) + framed + rest, framed, rest);
  }

  lemma PaddedReadsFrom(stream: Bytes, framed: Bytes, rest: Bytes)
    requires framed != [] && Take(framed + rest, |framed|) == Ok(Taken(framed, rest))
    requires ReadWord(stream) == if LengthOk(|framed|) then Ok((|framed|, framed + rest)) else Err(InvalidLength(|framed|))
    ensures Read(Padded, stream, 0) ==
            if |framed| > MAX_MESSAGE_SIZE then Err(InvalidLength(|framed|)) else Checked(framed[..|framed| - |framed| % 4], rest)
  {
  }

  /**
   A frame that was written reads back as its payload, and leaves what follows it, exactly
   when Carries says so.
   */
  lemma FrameTrip(f: Framing, payload: Bytes, tail: Bytes, seqNo: nat, rest: Bytes)
    requires |tail| == 4 && Write(f, payload, tail, seqNo).Ok?
    ensures Read(f, Frame(f, payload, tail, seqNo) + rest, seqNo) == Ok(Taken(payload, rest)) <==> Carries(f, payload, seqNo)
  {
    match f
    case Abridged => AbridgedTrip(payload, rest); TakeBack(payload, rest);
    case Intermediate => PlainTrip(payload, rest); TakeBack(payload, rest);
    case Padded => PaddedTrip(payload, tail, rest);
    case Full => FullTrip(payload, rest, seqNo);
  }

  // ---- Whole conversations ----

  /** The frames of the payloads one after another, the counter starting at seqNo. */
  function Frames(f: Framing, payloads: seq<Bytes>, tails: seq<Bytes>, seqNo: nat): Bytes
    requires |tails| == |payloads| && forall t | t in tails :: |t| == 4
  {
    if payloads == [] then []
    else Frame(f, payloads[0], tails[0], seqNo) + Frames(f, payloads[1..], tails[1..], seqNo + 1)
  }

  /** Reading n times in a row with a reader that is told the counter. */
  function ReadMany(read: (Bytes, nat) -> Result<Taken, CodecError>, stream: Bytes, n: nat, seqNo: nat): Result<(seq<Bytes>, Bytes), CodecError>
    decreases n
  {
    if n == 0 then Ok(([], stream))
    else
      var one := read(stream, seqNo);
      if one.Err? then Err(one.error)
      else
        var more := ReadMany(read, one.value.rest, n - 1, seqNo + 1);
        if more.Err? then more else Ok(([one.value.got] + more.value.0, more.value.1))
  }

  function Reader(f: Framing): (Bytes, nat) -> Result<Taken, CodecError> {
    (stream: Bytes, seqNo: nat) => Read(f, stream, seqNo)
  }

  /** A stream of frames, each of which reads back and leaves the next: at[i] is what is left before frame i. */
  lemma {:induction false} ReadsInOrder(read: (Bytes, nat) -> Result<Taken, CodecError>, payloads: seq<Bytes>, at: seq<Bytes>, seqNo: nat)
    requires |at| == |payloads| + 1
    requires forall i | 0 <= i < |payloads| :: read(at[i], seqNo + i) == Ok(Taken(payloads[i], at[i + 1]))
    ensures ReadMany(read, at[0], |payloads|, seqNo) == Ok((payloads, at[|payloads|]))
  {
    if payloads != [] {
      assert read(at[0], seqNo + 0) == Ok(Taken(payloads[0], at[1]));
      forall i | 0 <= i < |payloads| - 1
        ensures read(at[1..][i], seqNo + 1 + i) == Ok(Taken(payloads[1..][i], at[1..][i + 1]))
      {
        assert read(at[i + 1], seqNo + (i + 1)) == Ok(Taken(payloads[i + 1], at[i + 2]));
      }
      ReadsInOrder(read, payloads[1..], at[1..], seqNo + 1);
      assert [payloads[0]] + payloads[1..] == payloads;
    }
  }

  /** What is left of the stream before frame i. */
  function Remaining(f: Framing, payloads: seq<Bytes>, tails: seq<Bytes>, seqNo: nat, rest: Bytes, i: nat): Bytes
    requires |tails| == |payloads| && (forall t | t in tails :: |t| == 4) && i <= |payloads|
  {
    Frames(f, payloads[i..], tails[i..], seqNo + i) + rest
  }

  lemma RemainingFrom(f: Framing, payloads: seq<Bytes>, tails: seq<Bytes>, seqNo: nat, rest: Bytes, i: nat)
    requires |tails| == |payloads| && (forall t | t in tails :: |t| == 4) && i < |payloads|
    ensures
      Remaining(f, payloads, tails, seqNo, rest, i) ==
      Frame(f, payloads[i], tails[i], seqNo + i) + Remaining(f, payloads, tails, seqNo, rest, i + 1)
  {
    assert payloads[i..][1..] == payloads[i + 1..] && tails[i..][1..] == tails[i + 1..];
  }

  lemma RemainingEnds(f: Framing, payloads: seq<Bytes>, tails: seq<Bytes>, seqNo: nat, rest: Bytes)
    requires |tails| == |payloads| && forall t | t in tails :: |t| == 4
    ensures Remaining(f, payloads, tails, seqNo, rest, 0) == Frames(f, payloads, tails, seqNo) + rest
    ensures Remaining(f, payloads, tails, seqNo, rest, |payloads|) == rest
  {
    assert payloads[0..] == payloads && tails[0..] == tails;
  }

  lemma FrameReads(f: Framing, payload: Bytes, tail: Bytes, seqNo: nat, rest: Bytes, stream: Bytes)
    requires |tail| == 4 && Writable(f, payload) && Carries(f, payload, seqNo)
    requires stream == Frame(f, payload, tail, seqNo) + rest
    ensures Reader(f)(stream, seqNo) == Ok(Taken(payload, rest))
  {
    FrameTrip(f, payload, tail, seqNo, rest);
  }

  lemma FrameReadsInPlace(f: Framing, payloads: seq<Bytes>, tails: seq<Bytes>, seqNo: nat, rest: Bytes, i: nat)
    requires |tails| == |payloads| && (forall t | t in tails :: |t| == 4) && i < |payloads|
    requires Writable(f, payloads[i]) && Carries(f, payloads[i], seqNo + i)
    ensures
      Reader(f)(Remaining(f, payloads, tails, seqNo, rest, i), seqNo + i) ==
      Ok(Taken(payloads[i], Remaining(f, payloads, tails, seqNo, rest, i + 1)))
  {
    RemainingFrom(f, payloads, tails, seqNo, rest, i);
    FrameReads(f, payloads[i], tails[i], seqNo + i, Remaining(f, payloads, tails, seqNo, rest, i + 1),
               Remaining(f, payloads, tails, seqNo, rest, i));
  }

  /** Reading as many times as was written gives the payloads back in order, and nothing is left over. */
  lemma ConversationTrip(f: Framing, payloads: seq<Bytes>, tails: seq<Bytes>, seqNo: nat, rest: Bytes)
    requires |tails| == |payloads| && forall t | t in tails :: |t| == 4
    requires forall i | 0 <= i < |payloads| :: Writable(f, payloads[i]) && Carries(f, payloads[i], seqNo + i)
    ensures ReadMany(Reader(f), Frames(f, payloads, tails, seqNo) + rest, |payloads|, seqNo) == Ok((payloads, rest))
  {
    var at := seq(|payloads| + 1, i requires 0 <= i <= |payloads| => Remaining(f, payloads, tails, seqNo, rest, i));
    forall i | 0 <= i < |payloads| ensures Reader(f)(at[i], seqNo + i) == Ok(Taken(payloads[i], at[i + 1])) {
      FrameReadsInPlace(f, payloads, tails, seqNo, rest, i);
    }
    ReadsInOrder(Reader(f), payloads, at, seqNo);
    RemainingEnds(f, payloads, tails, seqNo, rest);
  }

  // ---- What a frame looks like, and what is refused ----

  /** Exactly payloads of a positive length within the limit are sent, of whole words but for Full. */
  lemma WhatIsSent(f: Framing, payload: Bytes, tail: Bytes, seqNo: nat)
    requires |tail| == 4
    ensures Write(f, payload, tail, seqNo).Ok? <==> 0 < |payload| <= 0x100_0000 && (f.Full? || |payload| % 4 == 0)
    ensures Write(f, payload, tail, seqNo).Ok? ==> Write(f, payload, tail, seqNo).value == Frame(f, payload, tail, seqNo)
  {
  }

  /** The words of an abridged payload are counted in one byte below 127, and else in the three bytes after it. */
  lemma AbridgedByPosition(payload: Bytes, tail: Bytes)
    requires Writable(Abridged, payload) && |tail| == 4
    ensures
      var s, words := Frame(Abridged, payload, tail, 0), |payload| / 4;
      if words < 127 then |s| > 0 && s[0] as int == words && s[1..] == payload
      else |s| > 4 && s[0] == 127 && LeVal(s[1..4]) == words && s[4..] == payload
  {
    var words := |payload| / 4;
    if words >= 127 {
      Pow256Values();
      LeValOfLe(words, 3);
      assert Frame(Abridged, payload, tail, 0)[1..4] == Le(words, 3);
    }
  }

  /** The intermediate framings count the bytes after the first four in those, least significant first. */
  lemma LengthByPosition(f: Framing, payload: Bytes, tail: Bytes)
    requires Writable(f, payload) && (f.Intermediate? || f.Padded?) && |tail| == 4
    ensures
      var s := Frame(f, payload, tail, 0);
      |s| >= 4 && LeVal(s[..4]) == |s| - 4 && payload <= s[4..] && (f.Intermediate? ==> s[4..] == payload)
  {
    var framed := if f.Padded? then payload + tail[..PadLength(payload)] else payload;
    LengthField(|framed|, framed);
    var s := Frame(f, payload, tail, 0);
    assert s == Le(|framed|, 4) + framed;
    assert s[..4] == Le(|framed|, 4) && s[4..] == framed;
    assert payload <= framed;
  }

  /** Full counts its whole frame, and numbers it. */
  lemma FullByPosition(payload: Bytes, seqNo: nat)
    requires Writable(Full, payload) && seqNo < 0x1_0000_0000
    ensures
      var s := FullFrame(payload, seqNo);
      |s| == 12 + |payload| && LeVal(s[..4]) == |s| && LeVal(s[4..8]) == seqNo && s[8..|s| - 4] == payload
  {
    var s := FullFrame(payload, seqNo);
    FullFields(payload, [], seqNo);
    assert s + [] == s;
    LengthField(12 + |payload|, []);
    LengthField(seqNo, []);
  }

  /** A full frame with another number than the one expected is refused. */
  lemma WrongNumberIsRejected(payload: Bytes, rest: Bytes, seqNo: nat, expected: nat)
    requires Writable(Full, payload) && 12 + |payload| <= MAX_MESSAGE_SIZE && seqNo < 0x8000_0000 && expected != seqNo
    ensures ReadFull(FullFrame(payload, seqNo) + rest, expected) == Err(SeqMismatch)
  {
    FullFields(payload, rest, seqNo);
    LengthField(12 + |payload|, []);
    SeqField(seqNo);
  }

  /** A frame of four bytes is an error code, with its sign turned. */
  lemma FourBytesAreACode(payload: Bytes, rest: Bytes, code: Int32)
    requires payload == Word32(AsUInt32(code)) && code > -0x8000_0000
    ensures Checked(payload, rest) == Err(ProtocolCode(-code))
  {
    Word32Trip(AsUInt32(code), payload);
  }

  // ---- Damage to a full frame ----

  lemma IntEqual(c: bv32, d: bv32)
    requires c as int == d as int
    ensures c == d
  {
    Crc32.IntTrip(c);
    Crc32.IntTrip(d);
  }

  lemma LeInjective(s: Bytes, t: Bytes)
    requires |s| == |t| && LeVal(s) == LeVal(t)
    ensures s == t
  {
    LeOfLeVal(s);
    LeOfLeVal(t);
  }

  lemma DamagedBody(body: Bytes, i: nat, b: byte)
    requires i < |body| && b != body[i]
    ensures Crc32.Crc(body[i := b]) as int != Crc32.Crc(body) as int
  {
    Crc32.OneByteChangesCrc(body, i, b);
    if Crc32.Crc(body[i := b]) as int == Crc32.Crc(body) as int { IntEqual(Crc32.Crc(body[i := b]), Crc32.Crc(body)); }
  }

  lemma DamagedCrc(crc: bv32, i: nat, b: byte)
    requires i < 4 && b != Le(crc as int, 4)[i]
    ensures LeVal(Le(crc as int, 4)[i := b]) != crc as int == LeVal(Le(crc as int, 4))
  {
    CrcBound(crc);
    LengthField(crc as int, []);
    if LeVal(Le(crc as int, 4)[i := b]) == crc as int { LeInjective(Le(crc as int, 4)[i := b], Le(crc as int, 4)); }
  }

  lemma CrcFieldDecides(stream: Bytes, seqNo: nat, n: nat)
    requires 12 <= n <= |stream| && n < 0x1_0000_0000 && stream[..4] == Le(n, 4)
    requires LeVal(stream[n - 4..n]) != Crc32.Crc(stream[..n - 4]) as int
    ensures ReadFull(stream, seqNo).Err?
  {
    LengthField(n, []);
  }

  /** A frame whose body alone, or whose CRC field alone, has one wrong byte. */
  lemma BadBodyIsRejected(payload: Bytes, seqNo: nat, body: Bytes, crc: Bytes, i: nat, b: byte, rest: Bytes)
    requires Writable(Full, payload)
    requires body == FullBody(payload, seqNo) && crc == Le(Crc32.Crc(body) as int, 4)
    requires 4 <= i < |body| && b != body[i]
    ensures ReadFull(body[i := b] + crc + rest, seqNo).Err?
  {
    var n, bad := 12 + |payload|, body[i := b] + crc + rest;
    assert bad[..n - 4] == body[i := b] && bad[n - 4..n] == crc;
    CrcBound(Crc32.Crc(body));
    LengthField(Crc32.Crc(body) as int, []);
    DamagedBody(body, i, b);
    assert bad[..4] == Le(n, 4);
    CrcFieldDecides(bad, seqNo, n);
  }

  lemma BadCrcIsRejected(payload: Bytes, seqNo: nat, body: Bytes, crc: Bytes, j: nat, b: byte, rest: Bytes)
    requires Writable(Full, payload)
    requires body == FullBody(payload, seqNo) && crc == Le(Crc32.Crc(body) as int, 4)
    requires j < |crc| && b != crc[j]
    ensures ReadFull(body + crc[j := b] + rest, seqNo).Err?
  {
    var n, bad := 12 + |payload|, body + crc[j := b] + rest;
    assert bad[..n - 4] == body && bad[n - 4..n] == crc[j := b];
    DamagedCrc(Crc32.Crc(body), j, b);
    assert bad[..4] == Le(n, 4);
    CrcFieldDecides(bad, seqNo, n);
  }

  lemma UpdateOfConcat(s: Bytes, t: Bytes, i: nat, b: byte)
    requires i < |s + t|
    ensures (s + t)[i := b] == if i < |s| then s[i := b] + t else s + t[i - |s| := b]
  {}

  /** Changing any single byte after the length field makes the frame unreadable. */
  lemma OneByteIsRejected(payload: Bytes, seqNo: nat, i: nat, b: byte, rest: Bytes)
    requires Writable(Full, payload)
    requires 4 <= i < |FullFrame(payload, seqNo)| && b != FullFrame(payload, seqNo)[i]
    ensures ReadFull(FullFrame(payload, seqNo)[i := b] + rest, seqNo).Err?
  {
    var body := FullBody(payload, seqNo);
    var crc := Le(Crc32.Crc(body) as int, 4);
    assert FullFrame(payload, seqNo) == body + crc;
    UpdateOfConcat(body, crc, i, b);
    if i < |body| {
      BadBodyIsRejected(payload, seqNo, body, crc, i, b, rest);
    } else {
      BadCrcIsRejected(payload, seqNo, body, crc, i - |body|, b, rest);
    }
  }
}
