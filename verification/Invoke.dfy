/**
 The wrappers that clients put around a call, and the JSON value that one of them carries.
 */
module Invoke {
  import opened Wrappers
  import opened ByteStrings
  import opened TlBuffers

  const WITH_LAYER: UInt32 := 0xDA9B0D0D
  const WITHOUT_UPDATES: UInt32 := 0xBF9459B7
  const AFTER_MSG: UInt32 := 0xCB9F372D
  const INIT_CONNECTION: UInt32 := 0xC1CD5EA9
  const CLIENT_PROXY: UInt32 := 0x75588B3F

  const JSON_NULL: UInt32 := 0x3F6D7B68
  const JSON_BOOL: UInt32 := 0xC7345E6A
  const JSON_NUMBER: UInt32 := 0x2BE0DFA4
  const JSON_STRING: UInt32 := 0xB71E767A
  const JSON_ARRAY: UInt32 := 0xF7444763
  const JSON_OBJECT: UInt32 := 0x99C1D49D
  const JSON_OBJECT_VALUE: UInt32 := 0xC0DE1BD9

  // ---- JSON ----

  datatype Json =
    | JNull
    | JBool(id: UInt32)
    | JNumber(bits: Int64)
    | JString(text: Bytes)
    | JArray(items: JsonList)
    | JObject(fields: JsonFields)

  datatype JsonList = Nil | Cons(head: Json, tail: JsonList)

  datatype JsonFields = NoField | Field(key: Bytes, value: Json, more: JsonFields)

  function Count(l: JsonList): nat { if l.Nil? then 0 else 1 + Count(l.tail) }

  function FieldCount(f: JsonFields): nat { if f.NoField? then 0 else 1 + FieldCount(f.more) }

  function EncodeJson(j: Json): Bytes {
    match j
    case JNull => Word32(JSON_NULL)
    case JBool(id) => Word32(JSON_BOOL) + Word32(id)
    case JNumber(bits) => Word32(JSON_NUMBER) + Word64(bits)
    case JString(text) => Word32(JSON_STRING) + EncodeBytes(text)
    case JArray(items) => Word32(JSON_ARRAY) + (EncodeVectorHeader(Count(items)) + EncodeItems(items))
    case JObject(fields) => Word32(JSON_OBJECT) + (EncodeVectorHeader(FieldCount(fields)) + EncodeFields(fields))
  }

  function EncodeItems(l: JsonList): Bytes { if l.Nil? then [] else EncodeJson(l.head) + EncodeItems(l.tail) }

  function EncodeFields(f: JsonFields): Bytes {
    if f.NoField? then [] else Word32(JSON_OBJECT_VALUE) + (EncodeBytes(f.key) + (EncodeJson(f.value) + EncodeFields(f.more)))
  }

  /** The lengths and counts that the encoding has room for. */
  predicate Encodable(j: Json) {
    match j
    case JString(text) => |text| < 0x100_0000
    case JArray(items) => Count(items) < 0x8000_0000 && ItemsEncodable(items)
    case JObject(fields) => FieldCount(fields) < 0x8000_0000 && FieldsEncodable(fields)
    case _ => true
  }

  predicate ItemsEncodable(l: JsonList) { l.Nil? || (Encodable(l.head) && ItemsEncodable(l.tail)) }

  predicate FieldsEncodable(f: JsonFields) {
    f.NoField? || (|f.key| < 0x100_0000 && Encodable(f.value) && FieldsEncodable(f.more))
  }

  // ---- Skipping ----

  type Rest = Result<Bytes, TlError>

  function Drop<T>(p: Parsed<T>): Rest { if p.Err? then Err(p.error) else Ok(p.value.rest) }

  /** What is left after a JSON value. Every value takes at least four bytes, so this ends on any input. */
  function Skip(s: Bytes): (r: Rest)
    ensures r.Ok? ==> |r.value| + 4 <= |s|
    decreases |s|, 0
  {
    if |s| < 4 then Err(Underrun)
    else
      var id, rest := ReadWord32(s[..4]), s[4..];
      if id == JSON_NULL then Ok(rest)
      else if id == JSON_BOOL then Drop(TakeWord(rest))
      else if id == JSON_NUMBER then Drop(TakeLong(rest))
      else if id == JSON_STRING then BytesShrink(rest); Drop(TakeBytes(rest))
      else if id == JSON_ARRAY then
        var n := TakeVectorHeader(rest);
        if n.Err? then Err(n.error) else SkipItems(n.value.rest, n.value.value)
      else if id == JSON_OBJECT then
        var n := TakeVectorHeader(rest);
        if n.Err? then Err(n.error) else SkipFields(n.value.rest, n.value.value)
      else Err(UnexpectedId(id))
  }

  function SkipItems(s: Bytes, n: int): (r: Rest)
    ensures r.Ok? ==> |r.value| <= |s|
    decreases |s|, 1
  {
    if n <= 0 then Ok(s)
    else
      var one := Skip(s);
      if one.Err? then one else SkipItems(one.value, n - 1)
  }

  function SkipField(s: Bytes): (r: Rest)
    ensures r.Ok? ==> |r.value| + 4 <= |s|
    decreases |s|, 0
  {
    var id := TakeId(s, JSON_OBJECT_VALUE);
    if id.Err? then id
    else
      var key := TakeBytes(id.value);
      BytesShrink(id.value);
      if key.Err? then Err(key.error) else Skip(key.value.rest)
  }

  function SkipFields(s: Bytes, n: int): (r: Rest)
    ensures r.Ok? ==> |r.value| <= |s|
    decreases |s|, 1
  {
    if n <= 0 then Ok(s)
    else
      var one := SkipField(s);
      if one.Err? then one else SkipFields(one.value, n - 1)
  }

  // ---- Decoding ----

  type Decoded<T> = Result<(T, Bytes), TlError>

  /** The value itself, and what is left after it. A count below zero is read as none. */
  function Decode(s: Bytes): (r: Decoded<Json>)
    ensures r.Ok? ==> |r.value.1| + 4 <= |s|
    decreases |s|, 0
  {
    var id := TakeWord(s);
    if id.Err? then Err(id.error)
    else
      var rest := id.value.rest;
      match id.value.value
      case 0x3F6D7B68 => Ok((JNull, rest))
      case 0xC7345E6A =>
        var v := TakeWord(rest);
        if v.Err? then Err(v.error) else Ok((JBool(v.value.value), v.value.rest))
      case 0x2BE0DFA4 =>
        var v := TakeLong(rest);
        if v.Err? then Err(v.error) else Ok((JNumber(v.value.value), v.value.rest))
      case 0xB71E767A =>
        var v := TakeBytes(rest);
        BytesShrink(rest);
        if v.Err? then Err(v.error) else Ok((JString(v.value.value), v.value.rest))
      case 0xF7444763 =>
        var n := TakeVectorHeader(rest);
        if n.Err? then Err(n.error)
        else
          var items := DecodeItems(n.value.rest, n.value.value);
          if items.Err? then Err(items.error) else Ok((JArray(items.value.0), items.value.1))
      case 0x99C1D49D =>
        var n := TakeVectorHeader(rest);
        if n.Err? then Err(n.error)
        else
          var fields := DecodeFields(n.value.rest, n.value.value);
          if fields.Err? then Err(fields.error) else Ok((JObject(fields.value.0), fields.value.1))
      case unknown => Err(UnexpectedId(unknown))
  }

  function DecodeItems(s: Bytes, n: int): (r: Decoded<JsonList>)
    ensures r.Ok? ==> |r.value.1| <= |s|
    decreases |s|, 1
  {
    if n <= 0 then Ok((Nil, s))
    else
      var one := Decode(s);
      if one.Err? then Err(one.error)
      else
        var more := DecodeItems(one.value.1, n - 1);
        if more.Err? then more else Ok((Cons(one.value.0, more.value.0), more.value.1))
  }

  function DecodeField(s: Bytes): (r: Decoded<(Bytes, Json)>)
    ensures r.Ok? ==> |r.value.1| + 4 <= |s|
    decreases |s|, 0
  {
    var id := TakeId(s, 0xC0DE1BD9);
    if id.Err? then Err(id.error)
    else
      var key := TakeBytes(id.value);
      BytesShrink(id.value);
      if key.Err? then Err(key.error)
      else
        var value := Decode(key.value.rest);
        if value.Err? then Err(value.error) else Ok(((key.value.value, value.value.0), value.value.1))
  }

  function DecodeFields(s: Bytes, n: int): (r: Decoded<JsonFields>)
    ensures r.Ok? ==> |r.value.1| <= |s|
    decreases |s|, 1
  {
    if n <= 0 then Ok((NoField, s))
    else
      var one := DecodeField(s);
      if one.Err? then Err(one.error)
      else
        var more := DecodeFields(one.value.1, n - 1);
        if more.Err? then more else Ok((Field(one.value.0.0, one.value.0.1, more.value.0), more.value.1))
  }

  function Left<T>(r: Decoded<T>): Rest { if r.Err? then Err(r.error) else Ok(r.value.1) }

  /** Skipping is decoding without keeping the value: it fails where and as decoding fails, and leaves what decoding leaves. */
  lemma {:induction false} SkipDecodes(s: Bytes)
    ensures Skip(s) == Left(Decode(s))
    decreases |s|, 0
  {
    if |s| >= 4 {
      var id, n := ReadWord32(s[..4]), TakeVectorHeader(s[4..]);
      if n.Ok? {
        if id == JSON_ARRAY { ItemsDecode(n.value.rest, n.value.value); }
        if id == JSON_OBJECT { FieldsDecode(n.value.rest, n.value.value); }
      }
    }
  }

  lemma DecodeItemsStep(s: Bytes, n: int)
    requires n > 0
    ensures Left(DecodeItems(s, n)) == (var one := Left(Decode(s)); if one.Err? then one else Left(DecodeItems(one.value, n - 1)))
  {
  }

  lemma DecodeFieldsStep(s: Bytes, n: int)
    requires n > 0
    ensures Left(DecodeFields(s, n)) == (var one := Left(DecodeField(s)); if one.Err? then one else Left(DecodeFields(one.value, n - 1)))
  {
  }

  lemma {:induction false} ItemsDecode(s: Bytes, n: int)
    ensures SkipItems(s, n) == Left(DecodeItems(s, n))
    decreases |s|, 1
  {
    if n > 0 {
      SkipDecodes(s);
      ItemsStep(s, n);
      DecodeItemsStep(s, n);
      if Skip(s).Ok? { ItemsGoOn(s, n, Skip(s).value); }
    }
  }

  lemma {:induction false} FieldsDecode(s: Bytes, n: int)
    ensures SkipFields(s, n) == Left(DecodeFields(s, n))
    decreases |s|, 1
  {
    if n > 0 {
      FieldDecodes(s);
      FieldsStep(s, n);
      DecodeFieldsStep(s, n);
      if SkipField(s).Ok? { FieldsGoOn(s, n, SkipField(s).value); }
    }
  }

  lemma {:induction false} ItemsGoOn(s: Bytes, n: int, rest: Bytes)
    requires |rest| < |s| && SkipItems(s, n) == SkipItems(rest, n - 1) && Left(DecodeItems(s, n)) == Left(DecodeItems(rest, n - 1))
    ensures SkipItems(s, n) == Left(DecodeItems(s, n))
    decreases |s|, 0
  {
    ItemsDecode(rest, n - 1);
  }

  lemma {:induction false} FieldsGoOn(s: Bytes, n: int, rest: Bytes)
    requires |rest| < |s| && SkipFields(s, n) == SkipFields(rest, n - 1) && Left(DecodeFields(s, n)) == Left(DecodeFields(rest, n - 1))
    ensures SkipFields(s, n) == Left(DecodeFields(s, n))
    decreases |s|, 0
  {
    FieldsDecode(rest, n - 1);
  }

  lemma {:induction false} FieldDecodes(s: Bytes)
    ensures SkipField(s) == Left(DecodeField(s))
    decreases |s|, 0
  {
    var id := TakeId(s, JSON_OBJECT_VALUE);
    if id.Ok? {
      BytesShrink(id.value);
      var key := TakeBytes(id.value);
      if key.Ok? { SkipDecodes(key.value.rest); }
    }
  }

  method SkipJsonValue(b: TLBuffer) returns (r: Result<(), TlError>)
    modifies b
    ensures
      var t := Skip(old(b.buf));
      if t.Err? then r == Err(t.error) else r == Ok(()) && b.buf == t.value
    decreases |b.buf|, 0
  {
    var peeked := b.PeekID();
    if peeked.Err? { return Err(peeked.error); }
    var id := peeked.value;
    r := b.ConsumeID(id);
    if id == JSON_NULL {
    } else if id == JSON_BOOL {
      var bool_ := b.PeekID();
      if bool_.Err? { return Err(bool_.error); }
      r := b.ConsumeID(bool_.value);
    } else if id == JSON_NUMBER {
      var bits := b.Long();
      if bits.Err? { return Err(bits.error); }
    } else if id == JSON_STRING {
      var text := b.GetBytes();
      if text.Err? { return Err(text.error); }
    } else if id == JSON_ARRAY {
      r := SkipArray(b);
    } else if id == JSON_OBJECT {
      r := SkipObject(b);
    } else {
      return Err(UnexpectedId(id));
    }
  }

  method SkipArray(b: TLBuffer) returns (r: Result<(), TlError>)
    modifies b
    ensures
      var n := TakeVectorHeader(old(b.buf));
      var t := if n.Err? then Err(n.error) else SkipItems(n.value.rest, n.value.value);
      if t.Err? then r == Err(t.error) else r == Ok(()) && b.buf == t.value
    decreases |b.buf|, 0
  {
    var count := b.VectorHeader();
    if count.Err? { return Err(count.error); }
    r := SkipElements(b, count.value);
  }

  /** How a loop goes on from what is left and how many items are still to come. */
  type Skipper = (Bytes, int) -> Rest

  ghost predicate SkipsItems(skip: Skipper) {
    forall s: Bytes, n: int {:trigger SkipItems(s, n)} :: skip(s, n) == SkipItems(s, n)
  }

  ghost predicate SkipsFields(skip: Skipper) {
    forall s: Bytes, n: int {:trigger SkipFields(s, n)} :: skip(s, n) == SkipFields(s, n)
  }

  method SkipElements(b: TLBuffer, count: int) returns (r: Result<(), TlError>)
    modifies b
    ensures
      var t := SkipItems(old(b.buf), count);
      if t.Err? then r == Err(t.error) else r == Ok(()) && b.buf == t.value
    decreases |b.buf|, 3
  {
    r := SkipEachElement(b, count, SkipItems);
  }

  lemma NoItemsLeft(skip: Skipper, s: Bytes, n: int)
    requires SkipsItems(skip) && n <= 0
    ensures skip(s, n) == Ok(s)
  {
    assert SkipItems(s, n) == Ok(s);
  }

  method SkipEachElement(b: TLBuffer, count: int, ghost skip: Skipper) returns (r: Result<(), TlError>)
    requires SkipsItems(skip)
    modifies b
    ensures
      var t := skip(old(b.buf), count);
      if t.Err? then r == Err(t.error) else r == Ok(()) && b.buf == t.value
    decreases |b.buf|, 2
  {
    ghost var all := skip(b.buf, count);
    var i := 0;
    while i < count
      invariant 0 <= i && |b.buf| <= |old(b.buf)|
      invariant skip(b.buf, count - i) == all
    {
      r := SkipOneOfElements(b, count - i, skip);
      if r.Err? { return r; }
      i := i + 1;
    }
    NoItemsLeft(skip, b.buf, count - i);
    return Ok(());
  }

  method SkipOneOfElements(b: TLBuffer, ghost n: int, ghost skip: Skipper) returns (r: Result<(), TlError>)
    requires n > 0 && SkipsItems(skip)
    modifies b
    ensures r.Err? ==> skip(old(b.buf), n) == Err(r.error)
    ensures r.Ok? ==> skip(old(b.buf), n) == skip(b.buf, n - 1) && |b.buf| < |old(b.buf)|
    decreases |b.buf|, 1
  {
    ItemsStep(b.buf, n);
    r := SkipJsonValue(b);
  }

  method SkipObjectField(b: TLBuffer) returns (r: Result<(), TlError>)
    modifies b
    ensures
      var t := SkipField(old(b.buf));
      if t.Err? then r == Err(t.error) else r == Ok(()) && b.buf == t.value
    decreases |b.buf|, 0
  {
    ghost var before := b.buf;
    r := b.ConsumeID(JSON_OBJECT_VALUE);
    if r.Err? { return r; }
    var key := b.GetBytes();
    if key.Err? { return Err(key.error); }
    BytesShrink(before[4..]);
    r := SkipJsonValue(b);
  }

  method SkipObject(b: TLBuffer) returns (r: Result<(), TlError>)
    modifies b
    ensures
      var n := TakeVectorHeader(old(b.buf));
      var t := if n.Err? then Err(n.error) else SkipFields(n.value.rest, n.value.value);
      if t.Err? then r == Err(t.error) else r == Ok(()) && b.buf == t.value
    decreases |b.buf|, 0
  {
    var count := b.VectorHeader();
    if count.Err? { return Err(count.error); }
    r := SkipPairs(b, count.value);
  }

  method SkipPairs(b: TLBuffer, count: int) returns (r: Result<(), TlError>)
    modifies b
    ensures
      var t := SkipFields(old(b.buf), count);
      if t.Err? then r == Err(t.error) else r == Ok(()) && b.buf == t.value
    decreases |b.buf|, 3
  {
    r := SkipEachPair(b, count, SkipFields);
  }

  lemma NoFieldsLeft(skip: Skipper, s: Bytes, n: int)
    requires SkipsFields(skip) && n <= 0
    ensures skip(s, n) == Ok(s)
  {
    assert SkipFields(s, n) == Ok(s);
  }

  method SkipEachPair(b: TLBuffer, count: int, ghost skip: Skipper) returns (r: Result<(), TlError>)
    requires SkipsFields(skip)
    modifies b
    ensures
      var t := skip(old(b.buf), count);
      if t.Err? then r == Err(t.error) else r == Ok(()) && b.buf == t.value
    decreases |b.buf|, 2
  {
    ghost var all := skip(b.buf, count);
    var i := 0;
    while i < count
      invariant 0 <= i && |b.buf| <= |old(b.buf)|
      invariant skip(b.buf, count - i) == all
    {
      r := SkipOneOfPairs(b, count - i, skip);
      if r.Err? { return r; }
      i := i + 1;
    }
    NoFieldsLeft(skip, b.buf, count - i);
    return Ok(());
  }

  method SkipOneOfPairs(b: TLBuffer, ghost n: int, ghost skip: Skipper) returns (r: Result<(), TlError>)
    requires n > 0 && SkipsFields(skip)
    modifies b
    ensures r.Err? ==> skip(old(b.buf), n) == Err(r.error)
    ensures r.Ok? ==> skip(old(b.buf), n) == skip(b.buf, n - 1) && |b.buf| < |old(b.buf)|
    decreases |b.buf|, 1
  {
    FieldsStep(b.buf, n);
    r := SkipObjectField(b);
  }

  // ---- A value is skipped whole ----

  lemma IdFirst(id: UInt32, body: Bytes, rest: Bytes)
    ensures
      var s := (Word32(id) + body) + rest;
      |s| >= 4 && ReadWord32(s[..4]) == id && s[4..] == body + rest && TakeId(s, id) == Ok(body + rest)
  {
    assert (Word32(id) + body) + rest == Word32(id) + (body + rest);
    WordTrip(id, body + rest);
  }

  lemma Regroup(a: Bytes, b: Bytes, rest: Bytes)
    ensures (a + b) + rest == a + (b + rest)
  {
  }

  lemma Regroup5(a: Bytes, b: Bytes, c: Bytes, d: Bytes, rest: Bytes)
    ensures (a + (b + (c + d))) + rest == (a + (b + c)) + (d + rest)
  {
  }

  lemma StringSkipped(text: Bytes, rest: Bytes)
    requires |text| < 0x100_0000
    ensures Skip(EncodeJson(JString(text)) + rest) == Ok(rest)
  {
    IdFirst(JSON_STRING, EncodeBytes(text), rest);
    BytesTrip(text, rest);
  }

  lemma NumberSkipped(bits: Int64, rest: Bytes)
    ensures Skip(EncodeJson(JNumber(bits)) + rest) == Ok(rest)
  {
    IdFirst(JSON_NUMBER, Word64(bits), rest);
    LongTrip(bits, rest);
  }

  lemma BoolSkipped(id: UInt32, rest: Bytes)
    ensures Skip(EncodeJson(JBool(id)) + rest) == Ok(rest)
  {
    IdFirst(JSON_BOOL, Word32(id), rest);
    WordTrip(id, rest);
  }

  lemma NullSkipped(rest: Bytes)
    ensures Skip(EncodeJson(JNull) + rest) == Ok(rest)
  {
    IdFirst(JSON_NULL, [], rest);
    assert Word32(JSON_NULL) + [] == Word32(JSON_NULL) && [] + rest == rest;
  }

  lemma ArrayForm(h: Bytes, body: Bytes, n: Int32, rest: Bytes)
    requires TakeVectorHeader(h + (body + rest)) == Ok(Got(n, body + rest)) && SkipItems(body + rest, n) == Ok(rest)
    ensures Skip((Word32(JSON_ARRAY) + (h + body)) + rest) == Ok(rest)
  {
    IdFirst(JSON_ARRAY, h + body, rest);
    Regroup(h, body, rest);
  }

  lemma ObjectForm(h: Bytes, body: Bytes, n: Int32, rest: Bytes)
    requires TakeVectorHeader(h + (body + rest)) == Ok(Got(n, body + rest)) && SkipFields(body + rest, n) == Ok(rest)
    ensures Skip((Word32(JSON_OBJECT) + (h + body)) + rest) == Ok(rest)
  {
    IdFirst(JSON_OBJECT, h + body, rest);
    Regroup(h, body, rest);
  }

  /** One field: its marker, its key and its value. */
  lemma FieldSkipped(key: Bytes, value: Bytes, rest: Bytes)
    requires |key| < 0x100_0000 && Skip(value + rest) == Ok(rest)
    ensures SkipField((Word32(JSON_OBJECT_VALUE) + (EncodeBytes(key) + value)) + rest) == Ok(rest)
  {
    IdFirst(JSON_OBJECT_VALUE, EncodeBytes(key) + value, rest);
    Regroup(EncodeBytes(key), value, rest);
    BytesTrip(key, value + rest);
  }

  /** Skipping consumes exactly the encoding of any tree. */
  lemma {:induction false} JsonSkipped(j: Json, rest: Bytes)
    requires Encodable(j)
    ensures Skip(EncodeJson(j) + rest) == Ok(rest)
    decreases j
  {
    match j
    case JNull => NullSkipped(rest);
    case JBool(id) => BoolSkipped(id, rest);
    case JNumber(bits) => NumberSkipped(bits, rest);
    case JString(text) => StringSkipped(text, rest);
    case JArray(items) =>
      ItemsSkipped(items, rest);
      VectorHeaderTrip(Count(items), EncodeItems(items) + rest);
      ArrayForm(EncodeVectorHeader(Count(items)), EncodeItems(items), Count(items), rest);
    case JObject(fields) =>
      FieldsSkipped(fields, rest);
      VectorHeaderTrip(FieldCount(fields), EncodeFields(fields) + rest);
      ObjectForm(EncodeVectorHeader(FieldCount(fields)), EncodeFields(fields), FieldCount(fields), rest);
  }

  lemma ItemsStep(s: Bytes, n: int)
    requires n > 0
    ensures SkipItems(s, n) == (var one := Skip(s); if one.Err? then one else SkipItems(one.value, n - 1))
  {
  }

  lemma FieldsStep(s: Bytes, n: int)
    requires n > 0
    ensures SkipFields(s, n) == (var one := SkipField(s); if one.Err? then one else SkipFields(one.value, n - 1))
  {
  }

  lemma {:induction false} ItemsSkipped(l: JsonList, rest: Bytes)
    requires ItemsEncodable(l)
    ensures SkipItems(EncodeItems(l) + rest, Count(l)) == Ok(rest)
    decreases l
  {
    if l.Nil? {
      assert EncodeItems(l) + rest == rest;
    } else {
      Regroup(EncodeJson(l.head), EncodeItems(l.tail), rest);
      JsonSkipped(l.head, EncodeItems(l.tail) + rest);
      ItemsSkipped(l.tail, rest);
      ItemsStep(EncodeItems(l) + rest, Count(l));
    }
  }

  lemma {:induction false} FieldsSkipped(f: JsonFields, rest: Bytes)
    requires FieldsEncodable(f)
    ensures SkipFields(EncodeFields(f) + rest, FieldCount(f)) == Ok(rest)
    decreases f
  {
    if f.NoField? {
      assert EncodeFields(f) + rest == rest;
    } else {
      var value, later := EncodeJson(f.value), EncodeFields(f.more);
      JsonSkipped(f.value, later + rest);
      FieldsSkipped(f.more, rest);
      FieldSkipped(f.key, value, later + rest);
      Regroup5(Word32(JSON_OBJECT_VALUE), EncodeBytes(f.key), value, later, rest);
      FieldsStep(EncodeFields(f) + rest, FieldCount(f));
    }
  }

  // ---- Skipping only takes from the front ----

  lemma StillSuffix(r: Rest, rest: Bytes, s: Bytes)
    requires IsSuffix(rest, s) && (r.Ok? ==> IsSuffix(r.value, rest))
    ensures r.Ok? ==> IsSuffix(r.value, s)
  {
    if r.Ok? { SuffixOfSuffix(r.value, rest, s); }
  }

  lemma DropLeavesSuffix(s: Bytes)
    ensures |s| >= 4 ==> IsSuffix(s[4..], s)
    ensures |s| >= 8 ==> IsSuffix(s[8..], s)
    ensures TakeBytes(s).Ok? ==> IsSuffix(TakeBytes(s).value.rest, s)
  {
  }

  lemma VectorLeavesSuffix(s: Bytes)
    ensures TakeVectorHeader(s).Ok? ==> |s| >= 8 && TakeVectorHeader(s).value.rest == s[8..]
  {
  }

  /** loop takes items off the front, one at a time. The equation is used only where at says so. */
  ghost predicate IsLoop(one: Bytes -> Rest, loop: Skipper, at: (Bytes, int) -> bool) {
    forall t, m {:trigger at(t, m)} ::
      loop(t, m) == if m <= 0 then Ok(t) else if one(t).Err? then one(t) else loop(one(t).value, m - 1)
  }

  /** A loop leaves a suffix when every item does. */
  lemma {:induction false} LoopLeavesSuffix(one: Bytes -> Rest, loop: Skipper, at: (Bytes, int) -> bool, s: Bytes, n: int)
    requires IsLoop(one, loop, at)
    requires forall t {:trigger one(t)} | |t| <= |s| && one(t).Ok? :: |one(t).value| < |t| && IsSuffix(one(t).value, t)
    ensures loop(s, n).Ok? ==> IsSuffix(loop(s, n).value, s)
    decreases |s|
  {
    var here := at(s, n);
    TailIsSuffix(s, 0);
    if n > 0 && one(s).Ok? {
      LoopLeavesSuffix(one, loop, at, one(s).value, n - 1);
      StillSuffix(loop(one(s).value, n - 1), one(s).value, s);
    }
  }

  lemma {:induction false} SkipLeavesSuffix(s: Bytes)
    ensures Skip(s).Ok? ==> IsSuffix(Skip(s).value, s)
    decreases |s|, 0
  {
    if |s| >= 4 && Skip(s).Ok? {
      var id, rest := ReadWord32(s[..4]), s[4..];
      DropLeavesSuffix(s);
      DropLeavesSuffix(rest);
      VectorLeavesSuffix(rest);
      if id == JSON_ARRAY {
        ItemsLeaveSuffix(rest[8..], TakeVectorHeader(rest).value.value);
        SuffixOfSuffix(Skip(s).value, rest[8..], rest);
      }
      if id == JSON_OBJECT {
        FieldsLeaveSuffix(rest[8..], TakeVectorHeader(rest).value.value);
        SuffixOfSuffix(Skip(s).value, rest[8..], rest);
      }
      assert IsSuffix(Skip(s).value, rest) by { if id == JSON_NULL { TailIsSuffix(rest, 0); } }
      SuffixOfSuffix(Skip(s).value, rest, s);
    }
  }

  lemma ItemsLeaveSuffix(s: Bytes, n: int)
    ensures SkipItems(s, n).Ok? ==> IsSuffix(SkipItems(s, n).value, s)
    decreases |s|, 1
  {
    var one: Bytes -> Rest, loop: Skipper := Skip, SkipItems;
    forall t, m ensures loop(t, m) == if m <= 0 then Ok(t) else if one(t).Err? then one(t) else loop(one(t).value, m - 1) {
      if m > 0 { ItemsStep(t, m); }
    }
    forall t | |t| <= |s| && one(t).Ok? ensures |one(t).value| < |t| && IsSuffix(one(t).value, t) { SkipLeavesSuffix(t); }
    LoopLeavesSuffix(one, loop, (t, m) => true, s, n);
  }

  lemma FieldLeavesSuffix(s: Bytes)
    ensures SkipField(s).Ok? ==> IsSuffix(SkipField(s).value, s)
    decreases |s|, 0
  {
    if SkipField(s).Ok? {
      var key := TakeBytes(s[4..]).value.rest;
      DropLeavesSuffix(s);
      DropLeavesSuffix(s[4..]);
      BytesShrink(s[4..]);
      SuffixOfSuffix(key, s[4..], s);
      SkipLeavesSuffix(key);
      SuffixOfSuffix(SkipField(s).value, key, s);
    }
  }

  lemma FieldsLeaveSuffix(s: Bytes, n: int)
    ensures SkipFields(s, n).Ok? ==> IsSuffix(SkipFields(s, n).value, s)
    decreases |s|, 1
  {
    var one: Bytes -> Rest, loop: Skipper := SkipField, SkipFields;
    forall t, m ensures loop(t, m) == if m <= 0 then Ok(t) else if one(t).Err? then one(t) else loop(one(t).value, m - 1) {
      if m > 0 { FieldsStep(t, m); }
    }
    forall t | |t| <= |s| && one(t).Ok? ensures |one(t).value| < |t| && IsSuffix(one(t).value, t) { FieldLeavesSuffix(t); }
    LoopLeavesSuffix(one, loop, (t, m) => true, s, n);
  }
}
