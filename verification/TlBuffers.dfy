/**
 The TL buffer: values are appended at the end and consumed from the front. The functions say
 what a value's encoding is and what reading makes of a byte string.
 */
module TlBuffers {
  import opened Wrappers
  import opened ByteStrings

  datatype TlError = Underrun | UnexpectedId(id: UInt32)

  /** A value read, and the bytes after it. */
  datatype Got<T> = Got(value: T, rest: Bytes)

  type Parsed<T> = Result<Got<T>, TlError>

  const TYPE_VECTOR: UInt32 := 0x1CB5C415
  const MSGS_ACK: UInt32 := 0x62D6B459

  function NearestPaddedLength(l: nat): nat {
    var n := 4 * (l / 4);
    if n < l then n + 4 else n
  }

  // ---- Encodings ----

  function BytesHeader(l: nat): Bytes {
    if l <= 253 then [Octet(l)] else [254] + Le(l % 0x100_0000, 3)
  }

  function EncodeBytes(v: Bytes): Bytes {
    var head := BytesHeader(|v|);
    head + v + Zeros(NearestPaddedLength(|head| + |v|) - (|head| + |v|))
  }

  function WrapInt32(n: nat): Int32 { AsInt32(n % 0x1_0000_0000) }

  function EncodeInt32(v: Int32): Bytes { Word32(AsUInt32(v)) }

  function EncodeHeader(id: UInt32, count: Int32): Bytes { Word32(id) + EncodeInt32(count) }

  function EncodeVectorHeader(n: nat): Bytes { EncodeHeader(TYPE_VECTOR, WrapInt32(n)) }

  // ---- Reading ----

  function TakeN(s: Bytes, n: nat): Parsed<Bytes> {
    if |s| < n then Err(Underrun) else Ok(Got(s[..n], s[n..]))
  }

  function TakeWord(s: Bytes): Parsed<UInt32> {
    if |s| < 4 then Err(Underrun) else Ok(Got(ReadWord32(s[..4]), s[4..]))
  }

  function TakeInt32(s: Bytes): Parsed<Int32> {
    if |s| < 4 then Err(Underrun) else Ok(Got(AsInt32(ReadWord32(s[..4])), s[4..]))
  }

  function TakeLong(s: Bytes): Parsed<Int64> {
    if |s| < 8 then Err(Underrun) else Ok(Got(ReadWord64(s[..8]), s[8..]))
  }

  /** The id goes, or nothing does. */
  function TakeId(s: Bytes, id: UInt32): Result<Bytes, TlError> {
    if |s| < 4 then Err(Underrun)
    else if ReadWord32(s[..4]) != id then Err(UnexpectedId(ReadWord32(s[..4])))
    else Ok(s[4..])
  }

  function HeaderLength(s: Bytes): nat
    requires s != []
  {
    if s[0] == 254 then 4 else 1
  }

  function TakeBytes(s: Bytes): Parsed<Bytes> {
    if s == [] then Err(Underrun)
    else if s[0] == 254 && |s| < 4 then Err(Underrun)
    else
      var h := HeaderLength(s);
      var l := if s[0] == 254 then LeVal(s[1..4]) else s[0] as int;
      if |s| < h + l || |s| < NearestPaddedLength(h + l) then Err(Underrun)
      else Ok(Got(s[h..h + l], s[NearestPaddedLength(h + l)..]))
  }

  function TakeHeader(s: Bytes, id: UInt32): Parsed<Int32> {
    var taken := TakeId(s, id);
    if taken.Err? then Err(taken.error) else TakeInt32(taken.value)
  }

  function TakeVectorHeader(s: Bytes): Parsed<Int32> { TakeHeader(s, TYPE_VECTOR) }

  // ---- Round trips ----

  lemma WordTrip(v: UInt32, rest: Bytes)
    ensures TakeWord(Word32(v) + rest) == Ok(Got(v, rest))
    ensures TakeId(Word32(v) + rest, v) == Ok(rest)
    ensures forall id: UInt32 | id != v :: TakeId(Word32(v) + rest, id) == Err(UnexpectedId(v))
  {
    assert (Word32(v) + rest)[..4] == Word32(v) && (Word32(v) + rest)[4..] == rest;
    Word32Trip(v, Word32(v));
  }

  lemma Int32Trip(v: Int32, rest: Bytes)
    ensures TakeInt32(EncodeInt32(v) + rest) == Ok(Got(v, rest))
  {
    assert (EncodeInt32(v) + rest)[..4] == EncodeInt32(v) && (EncodeInt32(v) + rest)[4..] == rest;
    Word32Trip(AsUInt32(v), EncodeInt32(v));
  }

  lemma LongTrip(v: Int64, rest: Bytes)
    ensures TakeLong(Word64(v) + rest) == Ok(Got(v, rest))
  {
    assert (Word64(v) + rest)[..8] == Word64(v) && (Word64(v) + rest)[8..] == rest;
    Word64Trip(v, Word64(v));
  }

  lemma HeaderTrip(id: UInt32, count: Int32, rest: Bytes)
    ensures TakeHeader(EncodeHeader(id, count) + rest, id) == Ok(Got(count, rest))
  {
    assert EncodeHeader(id, count) + rest == Word32(id) + (EncodeInt32(count) + rest);
    WordTrip(id, EncodeInt32(count) + rest);
    Int32Trip(count, rest);
  }

  lemma SmallCount(n: nat)
    ensures WrapInt32(n) == n <==> n < 0x8000_0000
  {
  }

  /** A header reads back as the length wrapped to 32 bits, which is the length exactly below 2^31. */
  lemma VectorHeaderTrip(n: nat, rest: Bytes)
    ensures TakeVectorHeader(EncodeVectorHeader(n) + rest) == Ok(Got(WrapInt32(n), rest))
    ensures WrapInt32(n) == n <==> n < 0x8000_0000
  {
    SmallCount(n);
    HeaderTrip(TYPE_VECTOR, WrapInt32(n), rest);
  }

  lemma ShortMarker(b: byte, l: nat)
    requires b as int == l <= 253
    ensures b != 254
  {
  }

  /** Where the parts of an encoded byte string are. */
  lemma BytesParts(head: Bytes, v: Bytes, pad: Bytes, rest: Bytes, s: Bytes)
    requires s == head + v + pad + rest
    ensures s[..|head|] == head && s[|head|..|head| + |v|] == v && s[|head| + |v| + |pad|..] == rest
  {
  }

  lemma PaddingBound(l: nat)
    ensures l <= NearestPaddedLength(l) < l + 4 && NearestPaddedLength(l) % 4 == 0
  {
  }

  /** Where the parts of a short encoded string are: its length in one byte, the string, zeros. */
  lemma ShortByPosition(v: Bytes)
    requires |v| < 254
    ensures
      var s := EncodeBytes(v);
      && 1 + |v| <= |s| < 5 + |v| && s[0] as int == |v|
      && s[1..1 + |v|] == v && s[1 + |v|..] == Zeros(|s| - (1 + |v|))
  {
    PaddingBound(1 + |v|);
    StringParts([Octet(|v|)], v, Zeros(NearestPaddedLength(1 + |v|) - (1 + |v|)));
  }

  /** And of a longer one: 254, its length in three bytes, the string, zeros. */
  lemma LongByPosition(v: Bytes)
    requires 254 <= |v| < 0x100_0000
    ensures
      var s := EncodeBytes(v);
      && 4 + |v| <= |s| < 8 + |v| && s[0] == 254 && LeVal(s[1..4]) == |v|
      && s[4..4 + |v|] == v && s[4 + |v|..] == Zeros(|s| - (4 + |v|))
  {
    var head := [254] + Le(|v|, 3);
    assert |v| % 0x100_0000 == |v|;
    PaddingBound(4 + |v|);
    StringParts(head, v, Zeros(NearestPaddedLength(4 + |v|) - (4 + |v|)));
    ThreeBytes(head, |v|, EncodeBytes(v));
  }

  lemma ThreeBytes(head: Bytes, n: nat, s: Bytes)
    requires n < 0x100_0000 && head == [254] + Le(n, 3) && |s| >= 4 && s[..4] == head
    ensures s[0] == 254 && LeVal(s[1..4]) == n
  {
    assert s[0] == s[..4][0] && s[1..4] == s[..4][1..4] == Le(n, 3);
    Pow256Values();
    LeValOfLe(n, 3);
  }

  lemma StringParts(head: Bytes, v: Bytes, zeros: Bytes)
    requires head != []
    ensures
      var s := head + v + zeros;
      s[0] == head[0] && s[..|head|] == head && s[|head|..|head| + |v|] == v && s[|head| + |v|..] == zeros
  {
  }

  lemma ShortBytesTrip(v: Bytes, rest: Bytes)
    requires |v| <= 253
    ensures TakeBytes(EncodeBytes(v) + rest) == Ok(Got(v, rest))
  {
    var head := BytesHeader(|v|);
    PaddingBound(1 + |v|);
    BytesParts(head, v, Zeros(NearestPaddedLength(1 + |v|) - (1 + |v|)), rest, EncodeBytes(v) + rest);
    ShortMarker(head[0], |v|);
    assert (EncodeBytes(v) + rest)[0] == head[0];
  }

  lemma LongHeader(l: nat)
    requires l > 253
    ensures |BytesHeader(l)| == 4 && BytesHeader(l)[0] == 254 && LeVal(BytesHeader(l)[1..4]) == l % 0x100_0000
  {
    Pow256Values();
    LeValOfLe(l % 0x100_0000, 3);
    assert BytesHeader(l)[1..4] == Le(l % 0x100_0000, 3);
  }

  lemma TakeLongForm(s: Bytes, l: nat)
    requires |s| >= 4 && s[0] == 254 && LeVal(s[1..4]) == l
    ensures TakeBytes(s) == if |s| < NearestPaddedLength(4 + l) then Err(Underrun) else Ok(Got(s[4..4 + l], s[NearestPaddedLength(4 + l)..]))
  {
    PaddingBound(4 + l);
  }

  lemma LongStart(v: Bytes, rest: Bytes)
    requires |v| > 253
    ensures
      var s := EncodeBytes(v) + rest;
      |s| >= 4 && s[0] == 254 && LeVal(s[1..4]) == |v| % 0x100_0000
  {
    var head, s := BytesHeader(|v|), EncodeBytes(v) + rest;
    LongHeader(|v|);
    assert s[..4] == head;
    assert s[0] == s[..4][0] && s[1..4] == s[..4][1..4];
  }

  lemma LongParts(v: Bytes, rest: Bytes, s: Bytes, padded: nat)
    requires |v| > 253 && s == EncodeBytes(v) + rest && padded == NearestPaddedLength(4 + |v|)
    ensures |s| >= padded >= 4 + |v| && s[4..4 + |v|] == v && s[padded..] == rest
  {
    PaddingBound(4 + |v|);
    BytesParts(BytesHeader(|v|), v, Zeros(padded - (4 + |v|)), rest, s);
  }

  lemma LongBytesFit(v: Bytes, rest: Bytes)
    requires 253 < |v| < 0x100_0000
    ensures TakeBytes(EncodeBytes(v) + rest) == Ok(Got(v, rest))
  {
    var s := EncodeBytes(v) + rest;
    LongStart(v, rest);
    assert |v| % 0x100_0000 == |v|;
    TakeLongForm(s, |v|);
    LongParts(v, rest, s, NearestPaddedLength(4 + |v|));
  }

  /** A long string comes back cut to its length modulo 2^24. */
  lemma LongBytesRead(v: Bytes, rest: Bytes)
    requires |v| > 253
    ensures
      var r := TakeBytes(EncodeBytes(v) + rest);
      && (|v| < 0x100_0000 ==> r == Ok(Got(v, rest)))
      && (r.Ok? ==> |r.value.value| == |v| % 0x100_0000)
  {
    LongStart(v, rest);
    TakesLong(EncodeBytes(v) + rest, |v| % 0x100_0000);
    if |v| < 0x100_0000 { LongBytesFit(v, rest); }
  }

  lemma TakesLong(s: Bytes, l: nat)
    requires |s| >= 4 && s[0] == 254 && LeVal(s[1..4]) == l
    ensures TakeBytes(s).Ok? ==> |TakeBytes(s).value.value| == l
  {
    TakeLongForm(s, l);
    PaddingBound(4 + l);
  }

  /** Encoded bytes read back, and leave what follows, exactly when their length fits in three bytes. */
  lemma BytesTrip(v: Bytes, rest: Bytes)
    ensures TakeBytes(EncodeBytes(v) + rest) == Ok(Got(v, rest)) <==> |v| < 0x100_0000
    ensures |EncodeBytes(v)| % 4 == 0 && |EncodeBytes(v)| >= 4
  {
    PaddingBound(|BytesHeader(|v|)| + |v|);
    if |v| <= 253 { ShortBytesTrip(v, rest); } else { LongBytesRead(v, rest); }
  }

  /** What is read is gone: four bytes of an encoded string at least, when the buffer is whole words. */
  lemma BytesShrink(s: Bytes)
    ensures TakeBytes(s).Ok? ==> |TakeBytes(s).value.rest| + 4 <= |s|
  {
    if s != [] && (s[0] != 254 || |s| >= 4) {
      PaddingBound(HeaderLength(s) + if s[0] == 254 then LeVal(s[1..4]) else s[0] as int);
    }
  }

  // ---- The buffer ----

  class TLBuffer {
    var buf: Bytes

    constructor (bytes: Bytes)
      ensures buf == bytes
    {
      buf := bytes;
    }

    method Put(data: Bytes)
      modifies this
      ensures buf == old(buf) + data
    {
      buf := buf + data;
    }

    method PutUint32(v: UInt32)
      modifies this
      ensures buf == old(buf) + Word32(v)
    {
      Put(Word32(v));
    }

    method PutInt32(v: Int32)
      modifies this
      ensures buf == old(buf) + EncodeInt32(v)
    {
      PutUint32(AsUInt32(v));
    }

    method PutLong(v: Int64)
      modifies this
      ensures buf == old(buf) + Word64(v)
    {
      Put(Word64(v));
    }

    method PutBytes(v: Bytes)
      modifies this
      ensures buf == old(buf) + EncodeBytes(v)
    {
      var l := |v|;
      var headerLen;
      ghost var before := buf;
      if l <= 253 {
        buf := buf + [Octet(l)];
        headerLen := 1;
      } else {
        buf := buf + [254];
        buf := buf + Le(l % 0x100_0000, 3);
        headerLen := 4;
      }
      assert buf == before + BytesHeader(l);
      Put(v);
      var current := headerLen + l;
      PaddingBound(current);
      buf := buf + Zeros(NearestPaddedLength(current) - current);
    }

    method PutHeader(id: UInt32, count: Int32)
      modifies this
      ensures buf == old(buf) + EncodeHeader(id, count)
    {
      PutUint32(id);
      PutInt32(count);
    }

    method PutVectorHeader(length: nat)
      modifies this
      ensures buf == old(buf) + EncodeVectorHeader(length)
    {
      PutHeader(TYPE_VECTOR, WrapInt32(length));
    }

    method PeekID() returns (r: Result<UInt32, TlError>)
      ensures r == if |buf| < 4 then Err(Underrun) else Ok(ReadWord32(buf[..4]))
    {
      r := if |buf| < 4 then Err(Underrun) else Ok(ReadWord32(buf[..4]));
    }

    method ConsumeN(n: nat) returns (r: Result<Bytes, TlError>)
      modifies this
      ensures
        var t := TakeN(old(buf), n);
        if t.Err? then r == Err(t.error) && buf == old(buf) else r == Ok(t.value.value) && buf == t.value.rest
    {
      if |buf| < n { return Err(Underrun); }
      r := Ok(buf[..n]);
      buf := buf[n..];
    }

    method Uint32() returns (r: Result<UInt32, TlError>)
      modifies this
      ensures
        var t := TakeWord(old(buf));
        if t.Err? then r == Err(t.error) && buf == old(buf) else r == Ok(t.value.value) && buf == t.value.rest
    {
      r := PeekID();
      if r.Ok? { buf := buf[4..]; }
    }

    method Int32() returns (r: Result<Int32, TlError>)
      modifies this
      ensures
        var t := TakeInt32(old(buf));
        if t.Err? then r == Err(t.error) && buf == old(buf) else r == Ok(t.value.value) && buf == t.value.rest
    {
      var v := Uint32();
      r := if v.Err? then Err(v.error) else Ok(AsInt32(v.value));
    }

    method ConsumeID(id: UInt32) returns (r: Result<(), TlError>)
      modifies this
      ensures
        var t := TakeId(old(buf), id);
        if t.Err? then r == Err(t.error) && buf == old(buf) else r == Ok(()) && buf == t.value
    {
      var got := PeekID();
      if got.Err? { return Err(got.error); }
      if got.value != id { return Err(UnexpectedId(got.value)); }
      buf := buf[4..];
      return Ok(());
    }

    method Long() returns (r: Result<Int64, TlError>)
      modifies this
      ensures
        var t := TakeLong(old(buf));
        if t.Err? then r == Err(t.error) && buf == old(buf) else r == Ok(t.value.value) && buf == t.value.rest
    {
      if |buf| < 8 { return Err(Underrun); }
      r := Ok(ReadWord64(buf[..8]));
      buf := buf[8..];
    }

    method GetBytes() returns (r: Result<Bytes, TlError>)
      modifies this
      ensures
        var t := TakeBytes(old(buf));
        if t.Err? then r == Err(t.error) && buf == old(buf) else r == Ok(t.value.value) && buf == t.value.rest
    {
      if buf == [] { return Err(Underrun); }
      var headerLen, l;
      if buf[0] == 254 {
        if |buf| < 4 { return Err(Underrun); }
        l := LeVal(buf[1..4]);
        headerLen := 4;
      } else {
        l := buf[0] as int;
        headerLen := 1;
      }
      if |buf| < headerLen + l { return Err(Underrun); }
      var v := buf[headerLen..headerLen + l];
      var padded := NearestPaddedLength(headerLen + l);
      if |buf| < padded { return Err(Underrun); }
      buf := buf[padded..];
      return Ok(v);
    }

    /** When the count is cut short the id is gone already. */
    method VectorHeader() returns (r: Result<Int32, TlError>)
      modifies this
      ensures
        var t := TakeVectorHeader(old(buf));
        if t.Err? then r == Err(t.error) else r == Ok(t.value.value) && buf == t.value.rest
    {
      var id := ConsumeID(TYPE_VECTOR);
      if id.Err? { return Err(id.error); }
      r := Int32();
    }
  }
}
