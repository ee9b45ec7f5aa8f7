/**
 Which transport a client is speaking, worked out from the first bytes it sends, and what
 the server then reads and writes as plain text.
 */
module Detection {
  import opened Wrappers
  import opened ByteStrings
  import opened Codecs
  import opened Ctr

  const ABRIDGED_TAG: Bytes := [0xEF, 0xEF, 0xEF, 0xEF]
  const INTERMEDIATE_START: Bytes := [0xEE, 0xEE, 0xEE, 0xEE]
  const PADDED_START: Bytes := [0xDD, 0xDD, 0xDD, 0xDD]

  const RESERVED: seq<Bytes> :=
    [[0x47, 0x45, 0x54, 0x20], [0x50, 0x4F, 0x53, 0x54], [0x48, 0x45, 0x41, 0x44], [0x4F, 0x50, 0x54, 0x49], [0x16, 0x03, 0x01, 0x02]]

  datatype DetectError = ShortRead | ReservedPrefix | UnknownTag

  datatype Mode = Direct(skip: nat) | Replaying | Obfuscated

  datatype Detected = Detected(framing: Framing, mode: Mode)

  predicate IsReservedPrefix(b: Bytes) {
    b == RESERVED[0] || b == RESERVED[1] || b == RESERVED[2] || b == RESERVED[3] || b == RESERVED[4]
  }

  function ByTag(tag: Bytes): Result<Framing, DetectError> {
    if tag == ABRIDGED_TAG then Ok(Abridged)
    else if tag == INTERMEDIATE_START then Ok(Intermediate)
    else if tag == PADDED_START then Ok(Padded)
    else Err(UnknownTag)
  }

  predicate SecretOk(secret: Bytes) { secret == [] || |secret| >= 16 }

  function Detect(p: Primitives, incoming: Bytes, secret: Bytes): Result<Detected, DetectError>
    requires SecretOk(secret)
  {
    if |incoming| < 1 then Err(ShortRead)
    else if incoming[0] == 0xEF then Ok(Detected(Abridged, Direct(1)))
    else if |incoming| < 4 then Err(ShortRead)
    else if incoming[..4] == INTERMEDIATE_START then Ok(Detected(Intermediate, Direct(4)))
    else if incoming[..4] == PADDED_START then Ok(Detected(Padded, Direct(4)))
    else if IsReservedPrefix(incoming[..4]) then Err(ReservedPrefix)
    else if |incoming| < 8 then Err(ShortRead)
    else if incoming[4..8] == Zeros(4) then Ok(Detected(Full, Replaying))
    else if |incoming| < 64 then Err(ShortRead)
    else
      var framing := ByTag(MetadataOf(p, incoming[..64], secret).protocol);
      if framing.Err? then Err(framing.error) else Ok(Detected(framing.value, Obfuscated))
  }

  /** Everything the server will read, in plain text. */
  function PlainInput(p: Primitives, incoming: Bytes, secret: Bytes, mode: Mode): Bytes
    requires SecretOk(secret)
    requires mode.Direct? ==> mode.skip <= |incoming|
    requires mode.Obfuscated? ==> |incoming| >= 64
  {
    match mode
    case Direct(skip) => incoming[skip..]
    case Replaying => incoming
    case Obfuscated =>
      var k := ClientKeys(p, incoming[..64], secret);
      Applied(KeyStream(p.aes, k.encryptKey, k.encryptIv), 64, incoming[64..])
  }

  /** What is on the wire after the server wrote these bytes. */
  function WireOutput(p: Primitives, incoming: Bytes, secret: Bytes, mode: Mode, sent: Bytes): Bytes
    requires SecretOk(secret)
    requires mode.Obfuscated? ==> |incoming| >= 64
  {
    if mode.Obfuscated? then
      var k := ClientKeys(p, incoming[..64], secret);
      Applied(KeyStream(p.aes, k.decryptKey, k.decryptIv), 0, sent)
    else sent
  }

  // ---- Clients ----

  /** How a client opens a connection and what it then puts on the wire for its plain bytes. */
  datatype Client = PlainClient(framing: Framing) | ObfuscatedClient(framing: Framing, init: Bytes)

  /** What a plain client sends first. */
  function Start(f: Framing): Bytes {
    match f
    case Abridged => [0xEF]
    case Intermediate => [0xEE, 0xEE, 0xEE, 0xEE]
    case Padded => [0xDD, 0xDD, 0xDD, 0xDD]
    case Full => []
  }

  /** An init names the framing by four equal bytes; there are none for Full. */
  predicate Announces(init: Bytes, f: Framing)
    requires |init| == 64
  {
    match f
    case Abridged => init[56] == 0xEF && init[57] == 0xEF && init[58] == 0xEF && init[59] == 0xEF
    case Intermediate => init[56] == 0xEE && init[57] == 0xEE && init[58] == 0xEE && init[59] == 0xEE
    case Padded => init[56] == 0xDD && init[57] == 0xDD && init[58] == 0xDD && init[59] == 0xDD
    case Full => false
  }

  predicate AnnouncesSome(init: Bytes)
    requires |init| == 64
  {
    Announces(init, Abridged) || Announces(init, Intermediate) || Announces(init, Padded)
  }

  predicate ClientOk(c: Client) { c.ObfuscatedClient? ==> |c.init| == 64 }

  function ClientWire(p: Primitives, c: Client, secret: Bytes, plain: Bytes): Bytes
    requires ClientOk(c) && SecretOk(secret)
  {
    match c
    case PlainClient(f) => Start(f) + plain
    case ObfuscatedClient(_, init) =>
      var k := ClientKeys(p, init, secret);
      WireInit(p, init, secret) + Applied(KeyStream(p.aes, k.encryptKey, k.encryptIv), 64, plain)
  }

  /** What the client makes of the bytes it receives. */
  function ClientReads(p: Primitives, c: Client, secret: Bytes, wire: Bytes): Bytes
    requires ClientOk(c) && SecretOk(secret)
  {
    match c
    case PlainClient(_) => wire
    case ObfuscatedClient(_, init) =>
      var k := ClientKeys(p, init, secret);
      Applied(KeyStream(p.aes, k.decryptKey, k.decryptIv), 0, wire)
  }

  /** An init that cannot be taken for anything else, which a client can see before sending it. */
  predicate Unmistakable(init: Bytes)
    requires |init| == 64
  {
    && init[0] != 0xEF && init[..4] != [0xEE, 0xEE, 0xEE, 0xEE] && init[..4] != [0xDD, 0xDD, 0xDD, 0xDD]
    && !LooksLikeHttp(init[..4]) && init[..4] != [0x16, 0x03, 0x01, 0x02] && init[4..8] != [0, 0, 0, 0]
  }

  /** The first four letters of GET, POST, HEAD or OPTIONS. */
  predicate LooksLikeHttp(b: Bytes)
    requires |b| == 4
  {
    IsText(b, "GET ") || IsText(b, "POST") || IsText(b, "HEAD") || IsText(b, "OPTI")
  }

  predicate IsText(b: Bytes, text: string)
    requires |b| == |text| == 4
  {
    && b[0] as int == text[0] as int && b[1] as int == text[1] as int
    && b[2] as int == text[2] as int && b[3] as int == text[3] as int
  }

  lemma SameText(b: Bytes, r: Bytes, text: string)
    requires |b| == |r| == |text| == 4 && IsText(r, text)
    ensures b == r <==> IsText(b, text)
  {
    if IsText(b, text) {
      SameOctet(b[0], r[0]);
      SameOctet(b[1], r[1]);
      SameOctet(b[2], r[2]);
      SameOctet(b[3], r[3]);
      assert b == r;
    }
  }

  /** What is refused at once: the start of an HTTP request, and one prefix more. */
  lemma ReservedPrefixes(b: Bytes)
    requires |b| == 4
    ensures IsReservedPrefix(b) <==> LooksLikeHttp(b) || b == [0x16, 0x03, 0x01, 0x02]
  {
    SameText(b, RESERVED[0], "GET ");
    SameText(b, RESERVED[1], "POST");
    SameText(b, RESERVED[2], "HEAD");
    SameText(b, RESERVED[3], "OPTI");
  }

  lemma TagsAreAnnounced(init: Bytes)
    requires |init| == 64
    ensures ByTag(init[56..60]).Ok? <==> AnnouncesSome(init)
    ensures forall f :: ByTag(init[56..60]) == Ok(f) <==> Announces(init, f)
  {
    var tag := init[56..60];
    assert tag == [init[56], init[57], init[58], init[59]];
  }

  lemma PlainStartsAreSeen(p: Primitives, f: Framing, secret: Bytes, plain: Bytes)
    requires SecretOk(secret) && !f.Full?
    ensures
      var wire, mode := ClientWire(p, PlainClient(f), secret, plain), Direct(|Start(f)|);
      Detect(p, wire, secret) == Ok(Detected(f, mode)) && PlainInput(p, wire, secret, mode) == plain
  {
    var wire := Start(f) + plain;
    assert !f.Abridged? ==> wire[..4] == Start(f) && wire[0] == Start(f)[0];
    assert wire[|Start(f)|..] == plain;
  }

  lemma LeHead(v: nat, n: nat)
    requires n > 0
    ensures Le(v, n)[0] as int == v % 256 && Le(v, n)[1..] == Le(v / 256, n - 1)
  {
  }

  lemma LastOfLe(v: nat, a: nat, b: nat, c: nat)
    requires a == v / 256 && b == a / 256 && c == b / 256
    ensures Le(v, 4)[3] as int == c % 256
  {
    LeHead(v, 4);
    LeHead(a, 3);
    LeHead(b, 2);
    LeHead(c, 1);
    assert Le(v, 4)[3] == Le(a, 3)[2] == Le(b, 2)[1] == Le(c, 1)[0];
  }

  lemma Quotients(n: nat) returns (a: nat, b: nat, c: nat)
    requires n < 0x200_0000
    ensures a == n / 256 && b == a / 256 && c == b / 256 && c < 2
  {
    a := n / 256;
    assert a < 0x2_0000;
    b := a / 256;
    assert b < 0x200;
    c := b / 256;
  }

  lemma SmallByte(b: byte, c: nat)
    requires b as int == c % 256 && c < 2
    ensures b as int < 2
  {}

  lemma LastLengthByte(n: nat)
    requires n < 0x200_0000
    ensures Le(n, 4)[3] as int < 2
  {
    var a, b, c := Quotients(n);
    LastOfLe(n, a, b, c);
    SmallByte(Le(n, 4)[3], c);
  }

  lemma LengthBytes(n: nat)
    requires n < 0x200_0000
    ensures Le(n, 4)[0] as int == n % 256 && Le(n, 4)[3] as int < 2
  {
    LeHead(n, 4);
    LastLengthByte(n);
  }

  lemma ZeroWord()
    ensures Le(0, 4) == Zeros(4)
  {
    assert Le(0, 1) == [Octet(0)] + Le(0, 0);
    assert Le(0, 2) == [Octet(0)] + Le(0, 1);
    assert Le(0, 3) == [Octet(0)] + Le(0, 2);
    OctetOf(0);
  }

  lemma SmallLengthIsNoMarker(s: Bytes)
    requires |s| == 4 && s[3] as int < 2
    ensures s != INTERMEDIATE_START && s != PADDED_START && !IsReservedPrefix(s)
  {
    assert INTERMEDIATE_START[3] == 0xEE && PADDED_START[3] == 0xDD;
    assert RESERVED[0][3] == 0x20 && RESERVED[1][3] == 0x54 && RESERVED[2][3] == 0x44 && RESERVED[3][3] == 0x49 && RESERVED[4][3] == 0x02;
  }

  lemma DetectsFull(p: Primitives, wire: Bytes, secret: Bytes)
    requires SecretOk(secret) && |wire| >= 8 && wire[3] as int < 2 && wire[4..8] == Zeros(4)
    ensures Detect(p, wire, secret) == if wire[0] == 0xEF then Ok(Detected(Abridged, Direct(1))) else Ok(Detected(Full, Replaying))
  {
    SmallLengthIsNoMarker(wire[..4]);
  }

  lemma FullHead(payload: Bytes, rest: Bytes)
    requires Writable(Full, payload)
    ensures
      var wire := FullFrame(payload, 0) + rest;
      |wire| >= 8 && wire[0] as int == (12 + |payload|) % 256 && wire[3] as int < 2 && wire[4..8] == Zeros(4)
  {
    var wire := FullFrame(payload, 0) + rest;
    FullFields(payload, rest, 0);
    LengthBytes(12 + |payload|);
    ZeroWord();
    assert wire[0] == wire[..4][0] && wire[3] == wire[..4][3];
  }

  /**
   A full client is recognized exactly when the low byte of its first frame's length is not the
   abridged marker; nothing of that frame is lost. A first payload of 4k bytes is always fine.
   */
  lemma FullIsSeen(p: Primitives, secret: Bytes, payload: Bytes, rest: Bytes)
    requires SecretOk(secret) && Writable(Full, payload)
    ensures
      var wire := ClientWire(p, PlainClient(Full), secret, FullFrame(payload, 0) + rest);
      && (Detect(p, wire, secret) == Ok(Detected(Full, Replaying)) <==> (12 + |payload|) % 256 != 0xEF)
      && PlainInput(p, wire, secret, Replaying) == FullFrame(payload, 0) + rest
      && (|payload| % 4 == 0 ==> (12 + |payload|) % 256 != 0xEF)
  {
    var wire := FullFrame(payload, 0) + rest;
    FullHead(payload, rest);
    assert Start(Full) + wire == wire;
    MarkerByte(wire[0], (12 + |payload|) % 256);
    DetectsFull(p, wire, secret);
  }

  lemma MarkerByte(b: byte, n: nat)
    requires b as int == n
    ensures b == 0xEF <==> n == 0xEF
  {
    if n == 0xEF { SameOctet(b, 0xEF); }
  }

  lemma DetectsInit(p: Primitives, wire: Bytes, secret: Bytes, init: Bytes)
    requires SecretOk(secret) && |init| == 64 <= |wire| && wire[..8] == init[..8]
    ensures
      var d, framing := Detect(p, wire, secret), ByTag(MetadataOf(p, wire[..64], secret).protocol);
      && (d.Ok? && d.value.mode.Obfuscated? <==> Unmistakable(init) && framing.Ok?)
      && (Unmistakable(init) && framing.Ok? ==> d == Ok(Detected(framing.value, Obfuscated)))
      && (Unmistakable(init) && framing.Err? ==> d == Err(framing.error))
  {
    ReservedPrefixes(init[..4]);
    assert Zeros(4) == [0, 0, 0, 0];
    assert wire[..4] == wire[..8][..4] && wire[4..8] == wire[..8][4..8] && wire[0] == wire[..8][0];
    assert init[..4] == init[..8][..4] && init[4..8] == init[..8][4..8] && init[0] == init[..8][0];
  }

  /**
   An obfuscated client is recognized as such exactly when its init is unmistakable and its tag is
   known, and as a client of its framing exactly when the tag is that framing's. The server then
   reads the client's plain bytes, and is read back by the client.
   */
  lemma ObfuscatedIsSeen(p: Primitives, secret: Bytes, f: Framing, init: Bytes, plain: Bytes, sent: Bytes)
    requires SecretOk(secret) && |init| == 64
    ensures
      var c := ObfuscatedClient(f, init);
      var wire := ClientWire(p, c, secret, plain);
      var d := Detect(p, wire, secret);
      && (d.Ok? && d.value.mode.Obfuscated? <==> Unmistakable(init) && AnnouncesSome(init))
      && (d == Ok(Detected(f, Obfuscated)) <==> Unmistakable(init) && Announces(init, f))
      && (Unmistakable(init) && !AnnouncesSome(init) ==> d == Err(UnknownTag))
      && PlainInput(p, wire, secret, Obfuscated) == plain
      && ClientReads(p, c, secret, WireOutput(p, wire, secret, Obfuscated, sent)) == sent
  {
    var wire := ClientWire(p, ObfuscatedClient(f, init), secret, plain);
    WireParts(p, secret, f, init, plain);
    DetectsInit(p, wire, secret, init);
    ServerSeesTag(p, init, secret);
    TagsAreAnnounced(init);
    InputDecrypts(p, secret, f, init, plain);
    OutputDecrypts(p, secret, f, init, plain, sent);
  }

  lemma WireParts(p: Primitives, secret: Bytes, f: Framing, init: Bytes, plain: Bytes)
    requires SecretOk(secret) && |init| == 64
    ensures
      var wire, k := ClientWire(p, ObfuscatedClient(f, init), secret, plain), ClientKeys(p, init, secret);
      && |wire| >= 64 && wire[..64] == WireInit(p, init, secret) && wire[..8] == init[..8]
      && wire[64..] == Applied(KeyStream(p.aes, k.encryptKey, k.encryptIv), 64, plain)
  {
  }

  lemma InputDecrypts(p: Primitives, secret: Bytes, f: Framing, init: Bytes, plain: Bytes)
    requires SecretOk(secret) && |init| == 64
    ensures
      var wire := ClientWire(p, ObfuscatedClient(f, init), secret, plain);
      |wire| >= 64 && PlainInput(p, wire, secret, Obfuscated) == plain
  {
    var k := ClientKeys(p, init, secret);
    WireParts(p, secret, f, init, plain);
    SameKeys(p, init, secret);
    AppliedTwice(KeyStream(p.aes, k.encryptKey, k.encryptIv), 64, plain);
  }

  lemma OutputDecrypts(p: Primitives, secret: Bytes, f: Framing, init: Bytes, plain: Bytes, sent: Bytes)
    requires SecretOk(secret) && |init| == 64
    ensures
      var c := ObfuscatedClient(f, init);
      var wire := ClientWire(p, c, secret, plain);
      |wire| >= 64 && ClientReads(p, c, secret, WireOutput(p, wire, secret, Obfuscated, sent)) == sent
  {
    var k := ClientKeys(p, init, secret);
    WireParts(p, secret, f, init, plain);
    SameKeys(p, init, secret);
    AppliedTwice(KeyStream(p.aes, k.decryptKey, k.decryptIv), 0, sent);
  }

  // ---- End to end ----

  /** The conditions under which detection is right, all visible to the client before it sends. */
  predicate Recognizable(c: Client, payloads: seq<Bytes>)
    requires ClientOk(c)
  {
    && (c.ObfuscatedClient? ==> Unmistakable(c.init) && Announces(c.init, c.framing))
    && (c == PlainClient(Full) ==> payloads != [] && (12 + |payloads[0]|) % 256 != 0xEF)
  }

  /** What detection owes a client: its framing, its plain bytes, and to be readable by it. */
  ghost predicate Served(p: Primitives, c: Client, secret: Bytes, f: Framing, plain: Bytes, sent: Bytes)
    requires ClientOk(c) && SecretOk(secret)
  {
    var wire := ClientWire(p, c, secret, plain);
    var d := Detect(p, wire, secret);
    && d.Ok? && d.value.framing == f
    && (d.value.mode.Direct? ==> d.value.mode.skip <= |wire|) && (d.value.mode.Obfuscated? ==> |wire| >= 64)
    && PlainInput(p, wire, secret, d.value.mode) == plain
    && ClientReads(p, c, secret, WireOutput(p, wire, secret, d.value.mode, sent)) == sent
  }

  lemma ServesFull(p: Primitives, secret: Bytes, payload: Bytes, rest: Bytes, sent: Bytes)
    requires SecretOk(secret) && Writable(Full, payload) && (12 + |payload|) % 256 != 0xEF
    ensures Served(p, PlainClient(Full), secret, Full, FullFrame(payload, 0) + rest, sent)
  {
    FullIsSeen(p, secret, payload, rest);
  }

  lemma ServesPlain(p: Primitives, secret: Bytes, f: Framing, plain: Bytes, sent: Bytes)
    requires SecretOk(secret) && !f.Full?
    ensures Served(p, PlainClient(f), secret, f, plain, sent)
  {
    PlainStartsAreSeen(p, f, secret, plain);
  }

  lemma ServesObfuscated(p: Primitives, secret: Bytes, f: Framing, init: Bytes, plain: Bytes, sent: Bytes)
    requires SecretOk(secret) && |init| == 64 && Unmistakable(init) && Announces(init, f)
    ensures Served(p, ObfuscatedClient(f, init), secret, f, plain, sent)
  {
    ObfuscatedIsSeen(p, secret, f, init, plain, sent);
  }

  lemma FirstFullFrame(payloads: seq<Bytes>, tails: seq<Bytes>)
    requires |tails| == |payloads| > 0 && forall t | t in tails :: |t| == 4
    ensures Frames(Full, payloads, tails, 0) == FullFrame(payloads[0], 0) + Frames(Full, payloads[1..], tails[1..], 1)
  {
  }

  /** Every client that keeps the conditions is served, whatever bytes are exchanged. */
  lemma RecognizedClient(p: Primitives, c: Client, secret: Bytes, payloads: seq<Bytes>, tails: seq<Bytes>, sent: Bytes)
    requires ClientOk(c) && SecretOk(secret) && Recognizable(c, payloads)
    requires |tails| == |payloads| && forall t | t in tails :: |t| == 4
    requires forall i | 0 <= i < |payloads| :: Writable(c.framing, payloads[i])
    ensures Served(p, c, secret, c.framing, Frames(c.framing, payloads, tails, 0), sent)
  {
    var f := c.framing;
    if c.ObfuscatedClient? {
      ServesObfuscated(p, secret, f, c.init, Frames(f, payloads, tails, 0), sent);
    } else if f.Full? {
      FirstFullFrame(payloads, tails);
      ServesFull(p, secret, payloads[0], Frames(f, payloads[1..], tails[1..], 1), sent);
    } else {
      ServesPlain(p, secret, f, Frames(f, payloads, tails, 0), sent);
    }
  }

  lemma ServedReads(p: Primitives, c: Client, secret: Bytes, f: Framing, plain: Bytes, payloads: seq<Bytes>)
    requires ClientOk(c) && SecretOk(secret) && Served(p, c, secret, f, plain, [])
    requires ReadMany(Reader(f), plain, |payloads|, 0) == Ok((payloads, []))
    ensures
      var wire := ClientWire(p, c, secret, plain);
      var d := Detect(p, wire, secret);
      && d.Ok? && (d.value.mode.Direct? ==> d.value.mode.skip <= |wire|) && (d.value.mode.Obfuscated? ==> |wire| >= 64)
      && ReadMany(Reader(d.value.framing), PlainInput(p, wire, secret, d.value.mode), |payloads|, 0) == Ok((payloads, []))
  {
  }

  lemma FramesRead(f: Framing, payloads: seq<Bytes>, tails: seq<Bytes>)
    requires |tails| == |payloads| && forall t | t in tails :: |t| == 4
    requires forall i | 0 <= i < |payloads| :: Writable(f, payloads[i]) && Carries(f, payloads[i], i)
    ensures ReadMany(Reader(f), Frames(f, payloads, tails, 0), |payloads|, 0) == Ok((payloads, []))
  {
    forall i | 0 <= i < |payloads| ensures Writable(f, payloads[i]) && Carries(f, payloads[i], 0 + i) {
      assert Carries(f, payloads[i], i);
    }
    ConversationTrip(f, payloads, tails, 0, []);
    assert Frames(f, payloads, tails, 0) + [] == Frames(f, payloads, tails, 0);
  }

  /** What the client wrote, through whatever transport, is what the server reads, in order and complete. */
  lemma PayloadsArrive(p: Primitives, c: Client, secret: Bytes, payloads: seq<Bytes>, tails: seq<Bytes>)
    requires ClientOk(c) && SecretOk(secret) && Recognizable(c, payloads)
    requires |tails| == |payloads| && forall t | t in tails :: |t| == 4
    requires forall i | 0 <= i < |payloads| :: Writable(c.framing, payloads[i]) && Carries(c.framing, payloads[i], i)
    ensures
      var wire := ClientWire(p, c, secret, Frames(c.framing, payloads, tails, 0));
      var d := Detect(p, wire, secret);
      && d.Ok? && (d.value.mode.Direct? ==> d.value.mode.skip <= |wire|) && (d.value.mode.Obfuscated? ==> |wire| >= 64)
      && ReadMany(Reader(d.value.framing), PlainInput(p, wire, secret, d.value.mode), |payloads|, 0) == Ok((payloads, []))
  {
    var f := c.framing;
    FramesRead(f, payloads, tails);
    RecognizedClient(p, c, secret, payloads, tails, []);
    ServedReads(p, c, secret, f, Frames(f, payloads, tails, 0), payloads);
  }
}
