/**
 Stripping the wrappers off the front of a call.
 */
module InvokeWrappers {
  import opened Wrappers
  import opened ByteStrings
  import opened TlBuffers
  import opened Invoke

  datatype Proxy = Proxy(address: Bytes, port: Int32)

  /** The metadata of initConnection: two flags say which of the last two fields are there. */
  datatype Init = Init(flags: UInt32, apiId: Int32, texts: seq<Bytes>, proxy: Option<Proxy>, params: Option<Json>)

  datatype Wrapper = WithLayer(layer: Int32) | WithoutUpdates | AfterMsg(msgId: Int64) | InitConnection(init: Init)

  predicate HasProxy(flags: UInt32) { flags % 2 == 1 }

  predicate HasParams(flags: UInt32) { (flags / 2) % 2 == 1 }

  predicate InitOk(i: Init) {
    && |i.texts| == 6 && (forall t | t in i.texts :: |t| < 0x100_0000)
    && (i.proxy.Some? <==> HasProxy(i.flags)) && (i.params.Some? <==> HasParams(i.flags))
    && (i.proxy.Some? ==> |i.proxy.value.address| < 0x100_0000)
    && (i.params.Some? ==> Encodable(i.params.value))
  }

  predicate WrapperOk(w: Wrapper) { w.InitConnection? ==> InitOk(w.init) }

  function EncodeTexts(texts: seq<Bytes>): Bytes {
    if texts == [] then [] else EncodeBytes(texts[0]) + EncodeTexts(texts[1..])
  }

  function EncodeProxy(p: Option<Proxy>): Bytes {
    if p.None? then [] else Word32(CLIENT_PROXY) + (EncodeBytes(p.value.address) + EncodeInt32(p.value.port))
  }

  function EncodeParams(p: Option<Json>): Bytes { if p.None? then [] else EncodeJson(p.value) }

  function EncodeInit(i: Init): Bytes {
    Word32(i.flags) + (EncodeInt32(i.apiId) + (EncodeTexts(i.texts) + (EncodeProxy(i.proxy) + EncodeParams(i.params))))
  }

  function EncodeWrapper(w: Wrapper): Bytes {
    match w
    case WithLayer(layer) => Word32(WITH_LAYER) + EncodeInt32(layer)
    case WithoutUpdates => Word32(WITHOUT_UPDATES) + []
    case AfterMsg(msgId) => Word32(AFTER_MSG) + Word64(msgId)
    case InitConnection(init) => Word32(INIT_CONNECTION) + EncodeInit(init)
  }

  function Wrapped(ws: seq<Wrapper>, inner: Bytes): Bytes {
    if ws == [] then inner else EncodeWrapper(ws[0]) + Wrapped(ws[1..], inner)
  }

  // ---- Stripping ----

  function SkipTexts(s: Bytes, n: nat): (r: Rest)
    ensures r.Ok? ==> IsSuffix(r.value, s)
    decreases |s|
  {
    if n == 0 then TailIsSuffix(s, 0); Ok(s)
    else
      var t := TakeBytes(s);
      if t.Err? then Err(t.error)
      else
        BytesShrink(s);
        DropLeavesSuffix(s);
        var r := SkipTexts(t.value.rest, n - 1);
        StillSuffix(r, t.value.rest, s);
        r
  }

  function SkipProxy(s: Bytes): (r: Rest)
    ensures r.Ok? ==> |r.value| <= |s|
  {
    var id := TakeId(s, CLIENT_PROXY);
    if id.Err? then id
    else
      var address := TakeBytes(id.value);
      BytesShrink(id.value);
      if address.Err? then Err(address.error) else Drop(TakeInt32(address.value.rest))
  }

  /** What follows the texts, as the flags say. */
  function SkipOptional(s: Bytes, flags: UInt32): (r: Rest)
    ensures r.Ok? ==> |r.value| <= |s|
  {
    var afterProxy := if HasProxy(flags) then SkipProxy(s) else Ok(s);
    if afterProxy.Err? then afterProxy
    else if HasParams(flags) then Skip(afterProxy.value) else afterProxy
  }

  function SkipInit(s: Bytes): (r: Rest)
    ensures r.Ok? ==> |r.value| <= |s|
  {
    var flags := TakeWord(s);
    if flags.Err? then Err(flags.error)
    else
      var api := TakeInt32(flags.value.rest);
      if api.Err? then Err(api.error)
      else
        var texts := SkipTexts(api.value.rest, 6);
        if texts.Err? then texts else SkipOptional(texts.value, flags.value.value)
  }

  predicate IsWrapperId(id: UInt32) { id == WITH_LAYER || id == WITHOUT_UPDATES || id == AFTER_MSG || id == INIT_CONNECTION }

  /** What follows one wrapper's id. */
  function SkipFieldsOf(id: UInt32, s: Bytes): (r: Rest)
    requires IsWrapperId(id)
    ensures r.Ok? ==> |r.value| <= |s|
  {
    if id == WITH_LAYER then Drop(TakeInt32(s))
    else if id == WITHOUT_UPDATES then Ok(s)
    else if id == AFTER_MSG then Drop(TakeLong(s))
    else SkipInit(s)
  }

  function Unwrap(s: Bytes): Rest
    decreases |s|
  {
    if |s| < 4 then Err(Underrun)
    else
      var id := ReadWord32(s[..4]);
      if !IsWrapperId(id) then Ok(s)
      else
        var after := SkipFieldsOf(id, s[4..]);
        if after.Err? then after else Unwrap(after.value)
  }

  /** device_model, system_version, app_version, system_lang_code, lang_pack and lang_code. */
  method SkipSixTexts(b: TLBuffer) returns (r: Result<(), TlError>)
    modifies b
    ensures
      var t := SkipTexts(old(b.buf), 6);
      if t.Err? then r == Err(t.error) else r == Ok(()) && b.buf == t.value
  {
    ghost var all := SkipTexts(b.buf, 6);
    for i := 0 to 6
      invariant SkipTexts(b.buf, 6 - i) == all
    {
      var text := b.GetBytes();
      if text.Err? { return Err(text.error); }
    }
    return Ok(());
  }

  method SkipInitConnection(b: TLBuffer) returns (r: Result<(), TlError>)
    modifies b
    ensures
      var t := SkipInit(old(b.buf));
      if t.Err? then r == Err(t.error) else r == Ok(()) && b.buf == t.value
  {
    var flags := b.Uint32();
    if flags.Err? { return Err(flags.error); }
    var apiId := b.Int32();
    if apiId.Err? { return Err(apiId.error); }
    r := SkipSixTexts(b);
    if r.Err? { return r; }
    r := SkipOptionalFields(b, flags.value);
  }

  method SkipOptionalFields(b: TLBuffer, flags: UInt32) returns (r: Result<(), TlError>)
    modifies b
    ensures
      var t := SkipOptional(old(b.buf), flags);
      if t.Err? then r == Err(t.error) else r == Ok(()) && b.buf == t.value
  {
    if flags % 2 == 1 {
      var id := b.ConsumeID(CLIENT_PROXY);
      if id.Err? { return id; }
      var address := b.GetBytes();
      if address.Err? { return Err(address.error); }
      var port := b.Int32();
      if port.Err? { return Err(port.error); }
    }
    if (flags / 2) % 2 == 1 {
      r := SkipJsonValue(b);
      return r;
    }
    return Ok(());
  }

  method UnwrapInvokeWrappers(b: TLBuffer) returns (r: Result<(), TlError>)
    modifies b
    ensures
      var t := Unwrap(old(b.buf));
      if t.Err? then r == Err(t.error) else r == Ok(()) && b.buf == t.value
  {
    ghost var all := Unwrap(b.buf);
    while true
      invariant Unwrap(b.buf) == all
      decreases |b.buf|
    {
      var peeked := b.PeekID();
      if peeked.Err? { return Err(peeked.error); }
      var id := peeked.value;
      if !IsWrapperId(id) { return Ok(()); }
      r := b.ConsumeID(id);
      r := SkipWrapperFields(b, id);
      if r.Err? { return r; }
    }
  }

  method SkipWrapperFields(b: TLBuffer, id: UInt32) returns (r: Result<(), TlError>)
    requires IsWrapperId(id)
    modifies b
    ensures
      var t := SkipFieldsOf(id, old(b.buf));
      if t.Err? then r == Err(t.error) else r == Ok(()) && b.buf == t.value
  {
    if id == WITH_LAYER {
      var layer := b.Int32();
      if layer.Err? { return Err(layer.error); }
    } else if id == WITHOUT_UPDATES {
    } else if id == AFTER_MSG {
      var msgId := b.Long();
      if msgId.Err? { return Err(msgId.error); }
    } else {
      r := SkipInitConnection(b);
      return r;
    }
    return Ok(());
  }

  // ---- Exactly the wrappers go ----

  lemma {:induction false} TextsSkipped(texts: seq<Bytes>, rest: Bytes)
    requires forall t | t in texts :: |t| < 0x100_0000
    ensures SkipTexts(EncodeTexts(texts) + rest, |texts|) == Ok(rest)
  {
    if texts == [] {
      assert EncodeTexts(texts) + rest == rest;
    } else {
      Regroup(EncodeBytes(texts[0]), EncodeTexts(texts[1..]), rest);
      BytesTrip(texts[0], EncodeTexts(texts[1..]) + rest);
      TextsSkipped(texts[1..], rest);
    }
  }

  lemma ProxySkipped(p: Proxy, rest: Bytes)
    requires |p.address| < 0x100_0000
    ensures SkipProxy(EncodeProxy(Some(p)) + rest) == Ok(rest)
  {
    IdFirst(CLIENT_PROXY, EncodeBytes(p.address) + EncodeInt32(p.port), rest);
    Regroup(EncodeBytes(p.address), EncodeInt32(p.port), rest);
    BytesTrip(p.address, EncodeInt32(p.port) + rest);
    Int32Trip(p.port, rest);
  }

  lemma OptionalSkipped(i: Init, rest: Bytes)
    requires InitOk(i)
    ensures SkipOptional((EncodeProxy(i.proxy) + EncodeParams(i.params)) + rest, i.flags) == Ok(rest)
  {
    var params := EncodeParams(i.params) + rest;
    Regroup(EncodeProxy(i.proxy), EncodeParams(i.params), rest);
    if i.proxy.Some? { ProxySkipped(i.proxy.value, params); } else { assert EncodeProxy(i.proxy) + params == params; }
    if i.params.Some? { JsonSkipped(i.params.value, rest); } else { assert params == rest; }
  }

  lemma InitSkipped(i: Init, rest: Bytes)
    requires InitOk(i)
    ensures SkipInit(EncodeInit(i) + rest) == Ok(rest)
  {
    var optional := EncodeProxy(i.proxy) + EncodeParams(i.params);
    Regroup(Word32(i.flags), EncodeInt32(i.apiId) + (EncodeTexts(i.texts) + optional), rest);
    Regroup(EncodeInt32(i.apiId), EncodeTexts(i.texts) + optional, rest);
    Regroup(EncodeTexts(i.texts), optional, rest);
    WordTrip(i.flags, EncodeInt32(i.apiId) + (EncodeTexts(i.texts) + (optional + rest)));
    Int32Trip(i.apiId, EncodeTexts(i.texts) + (optional + rest));
    TextsSkipped(i.texts, optional + rest);
    OptionalSkipped(i, rest);
  }

  function IdOf(w: Wrapper): UInt32 {
    match w
    case WithLayer(_) => WITH_LAYER
    case WithoutUpdates => WITHOUT_UPDATES
    case AfterMsg(_) => AFTER_MSG
    case InitConnection(_) => INIT_CONNECTION
  }

  lemma FieldsOfSkipped(w: Wrapper, rest: Bytes)
    requires WrapperOk(w)
    ensures
      var s := EncodeWrapper(w) + rest;
      |s| >= 4 && ReadWord32(s[..4]) == IdOf(w) && SkipFieldsOf(IdOf(w), s[4..]) == Ok(rest)
  {
    match w
    case WithLayer(layer) => IdFirst(WITH_LAYER, EncodeInt32(layer), rest); Int32Trip(layer, rest);
    case WithoutUpdates => IdFirst(WITHOUT_UPDATES, [], rest); assert [] + rest == rest;
    case AfterMsg(msgId) => IdFirst(AFTER_MSG, Word64(msgId), rest); LongTrip(msgId, rest);
    case InitConnection(init) => IdFirst(INIT_CONNECTION, EncodeInit(init), rest); InitSkipped(init, rest);
  }

  /** Any nesting of wrappers is transparent: what is left is what the inner bytes alone would leave. */
  lemma {:induction false} WrappersVanish(ws: seq<Wrapper>, inner: Bytes)
    requires forall w | w in ws :: WrapperOk(w)
    ensures Unwrap(Wrapped(ws, inner)) == Unwrap(inner)
  {
    if ws != [] {
      FieldsOfSkipped(ws[0], Wrapped(ws[1..], inner));
      WrappersVanish(ws[1..], inner);
    }
  }

  /** So a real call is left byte for byte, exactly when it does not itself start like a wrapper. */
  lemma InnerCallIsLeft(ws: seq<Wrapper>, inner: Bytes)
    requires forall w | w in ws :: WrapperOk(w)
    requires |inner| >= 4
    ensures Unwrap(Wrapped(ws, inner)) == Ok(inner) <==> !IsWrapperId(ReadWord32(inner[..4]))
  {
    WrappersVanish(ws, inner);
    var id := ReadWord32(inner[..4]);
    if IsWrapperId(id) {
      var after := SkipFieldsOf(id, inner[4..]);
      if after.Ok? { UnwrapShrinks(after.value); }
    }
  }

  // ---- Unwrapping only takes from the front ----

  lemma ProxyLeavesSuffix(s: Bytes)
    ensures SkipProxy(s).Ok? ==> IsSuffix(SkipProxy(s).value, s)
  {
    if SkipProxy(s).Ok? {
      var address := TakeBytes(s[4..]).value.rest;
      DropLeavesSuffix(s);
      DropLeavesSuffix(s[4..]);
      DropLeavesSuffix(address);
      SuffixOfSuffix(address, s[4..], s);
      SuffixOfSuffix(SkipProxy(s).value, address, s);
    }
  }

  lemma OptionalLeavesSuffix(s: Bytes, flags: UInt32)
    ensures SkipOptional(s, flags).Ok? ==> IsSuffix(SkipOptional(s, flags).value, s)
  {
    var afterProxy := if HasProxy(flags) then SkipProxy(s) else Ok(s);
    TailIsSuffix(s, 0);
    ProxyLeavesSuffix(s);
    if SkipOptional(s, flags).Ok? && HasParams(flags) {
      SkipLeavesSuffix(afterProxy.value);
      SuffixOfSuffix(SkipOptional(s, flags).value, afterProxy.value, s);
    }
  }

  lemma InitLeavesSuffix(s: Bytes)
    ensures SkipInit(s).Ok? ==> IsSuffix(SkipInit(s).value, s)
  {
    if SkipInit(s).Ok? {
      var fields := s[4..][4..];
      var texts := SkipTexts(fields, 6).value;
      DropLeavesSuffix(s);
      DropLeavesSuffix(s[4..]);
      SuffixOfSuffix(fields, s[4..], s);
      SuffixOfSuffix(texts, fields, s);
      OptionalLeavesSuffix(texts, ReadWord32(s[..4]));
      SuffixOfSuffix(SkipInit(s).value, texts, s);
    }
  }

  lemma WrapperLeavesSuffix(id: UInt32, s: Bytes)
    requires IsWrapperId(id)
    ensures SkipFieldsOf(id, s).Ok? ==> IsSuffix(SkipFieldsOf(id, s).value, s)
  {
    TailIsSuffix(s, 0);
    DropLeavesSuffix(s);
    InitLeavesSuffix(s);
  }

  /** Whatever unwrapping leaves is the end of the buffer it was given. */
  lemma {:induction false} UnwrapShrinks(s: Bytes)
    ensures Unwrap(s).Ok? ==> IsSuffix(Unwrap(s).value, s)
    decreases |s|
  {
    if |s| < 4 || !IsWrapperId(ReadWord32(s[..4])) {
      assert s[0..] == s;
    } else {
      var after := SkipFieldsOf(ReadWord32(s[..4]), s[4..]);
      if after.Ok? {
        WrapperLeavesSuffix(ReadWord32(s[..4]), s[4..]);
        TailIsSuffix(s, 4);
        SuffixOfSuffix(after.value, s[4..], s);
        UnwrapShrinks(after.value);
        if Unwrap(after.value).Ok? { SuffixOfSuffix(Unwrap(after.value).value, after.value, s); }
      }
    }
  }
}
