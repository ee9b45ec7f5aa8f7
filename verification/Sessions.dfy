/**
 A session: it takes decrypted messages apart, dispatches what they contain and numbers the
 replies. Handlers are inputs: what each one answers, for the message at each position.
 */
module Sessions {
  import opened Wrappers
  import opened ByteStrings
  import opened TlBuffers
  import opened InvokeWrappers
  import opened MessageCipher

  const PING: UInt32 := 0x7ABE77EC
  const PING_DELAY_DISCONNECT: UInt32 := 0xF3427B8C
  const PONG: UInt32 := 0x347773C5
  const RPC_ERROR: UInt32 := 0x2144CA19
  const RPC_RESULT: UInt32 := 0xF35C6D01
  const MSG_CONTAINER: UInt32 := 0x73F1F8DC

  datatype HandlerReply = NotRegistered | Threw | Returned(result: Bytes)

  /** What the registry does with the message at a position: its id and the fields after the id. */
  type Handlers = (nat, UInt32, Bytes) -> HandlerReply

  datatype SessionError = Undecryptable(error: CipherError) | NotIncreasing | Malformed | HandlerThrew

  datatype InnerMessage = InnerMessage(msgId: Int64, body: Bytes)

  /** A reply before encryption. */
  datatype Outgoing = Outgoing(salt: Int64, sessionId: Int64, seqNo: Int32, body: Bytes)

  // ---- One inner message ----

  function What(e: TlError): string {
    match e
    case Underrun => "unexpected end of TL buffer"
    case UnexpectedId(_) => "unexpected TL id"
  }

  function HexDigits(v: nat, n: nat): string { if n == 0 then "" else HexDigits(v / 16, n - 1) + [HEX[v % 16]] }

  function RpcError(code: Int32, message: string): Bytes {
    Word32(RPC_ERROR) + EncodeInt32(code) + EncodeBytes(Latin(message))
  }

  function RpcResult(msgId: Int64, result: Bytes): Bytes { Word32(RPC_RESULT) + Word64(msgId) + result }

  function Pong(msgId: Int64, pingId: Int64): Bytes { Word32(PONG) + Word64(msgId) + Word64(pingId) }

  lemma {:induction false} UnwrappedHasId(s: Bytes)
    ensures Unwrap(s).Ok? ==> |Unwrap(s).value| >= 4 && !IsWrapperId(ReadWord32(Unwrap(s).value[..4]))
    decreases |s|
  {
    if |s| >= 4 && IsWrapperId(ReadWord32(s[..4])) {
      var after := SkipFieldsOf(ReadWord32(s[..4]), s[4..]);
      if after.Ok? { UnwrappedHasId(after.value); }
    }
  }

  /** The call inside a message: its id and fields, or why the wrappers could not be taken off. */
  function CallOf(body: Bytes): Result<(UInt32, Bytes), TlError> {
    var u := Unwrap(body);
    if u.Err? then Err(u.error)
    else
      UnwrappedHasId(body);
      Ok((ReadWord32(u.value[..4]), u.value[4..]))
  }

  function AnswerToPing(msgId: Int64, fields: Bytes, delayed: bool): Result<Bytes, SessionError> {
    var pingId := TakeLong(fields);
    if pingId.Err? || (delayed && TakeInt32(pingId.value.rest).Err?) then Err(Malformed) else Ok(Pong(msgId, pingId.value.value))
  }

  function AnswerToCall(msgId: Int64, id: UInt32, reply: HandlerReply): Result<Bytes, SessionError> {
    match reply
    case Threw => Err(HandlerThrew)
    case NotRegistered => Ok(RpcResult(msgId, RpcError(400, "METHOD_NOT_FOUND 0x" + HexDigits(id, 8))))
    case Returned(result) =>
      Ok(RpcResult(msgId, if result == [] then RpcError(400, "METHOD_NOT_FOUND 0x" + HexDigits(id, 8)) else result))
  }

  /** The response to one message; nothing for an acknowledgement. */
  function Dispatch(handlers: Handlers, position: nat, m: InnerMessage): Result<Bytes, SessionError> {
    var call := CallOf(m.body);
    if call.Err? then Ok(RpcResult(m.msgId, RpcError(500, "INTERNAL " + What(call.error))))
    else
      var (id, fields) := call.value;
      if id == PING then AnswerToPing(m.msgId, fields, false)
      else if id == PING_DELAY_DISCONNECT then AnswerToPing(m.msgId, fields, true)
      else if id == MSGS_ACK then Ok([])
      else AnswerToCall(m.msgId, id, handlers(position, id, fields))
  }

  // ---- What a message is owed ----

  /** An acknowledgement, whatever it is wrapped in. */
  predicate IsAck(m: InnerMessage) {
    var u := Unwrap(m.body);
    u.Ok? && |u.value| >= 4 && ReadWord32(u.value[..4]) == 0x62D6B459
  }

  /** rpc_result with an rpc_error in it. */
  function Refusal(msgId: Int64, code: Int32, message: string): Bytes {
    Word32(0xF35C6D01) + Word64(msgId) + (Word32(0x2144CA19) + EncodeInt32(code) + EncodeBytes(Latin(message)))
  }

  /**
   The answer a message is owed, by what is left of it without wrappers: to both pings a pong
   with the ping's own eight bytes, to a call its handler's result, an error that names the id
   when there is none, and an internal error when the wrappers cannot be taken off.
   */
  predicate AnswersTo(handlers: Handlers, position: nat, m: InnerMessage, r: Bytes) {
    var u := Unwrap(m.body);
    if u.Err? then r == Refusal(m.msgId, 500, "INTERNAL " + What(u.error))
    else
      && |u.value| >= 4
      && var id, fields := ReadWord32(u.value[..4]), u.value[4..];
      if id == 0x7ABE77EC || id == 0xF3427B8C then
        |r| == 20 && |fields| >= 8 && r[..12] == Word32(0x347773C5) + Word64(m.msgId) && r[12..20] == fields[..8]
      else
        var reply := handlers(position, id, fields);
        if reply.Returned? && reply.result != [] then r == Word32(0xF35C6D01) + Word64(m.msgId) + reply.result
        else !reply.Threw? && r == Refusal(m.msgId, 400, "METHOD_NOT_FOUND 0x" + HexDigits(id, 8))
  }

  /** Why a message cannot be answered: a ping that ends early, or a handler that throws. */
  predicate Fails(handlers: Handlers, position: nat, m: InnerMessage, e: SessionError) {
    var u := Unwrap(m.body);
    && u.Ok? && |u.value| >= 4
    && var id, fields := ReadWord32(u.value[..4]), u.value[4..];
    if id == 0x7ABE77EC then e == Malformed && |fields| < 8
    else if id == 0xF3427B8C then e == Malformed && |fields| < 12
    else id != 0x62D6B459 && e == HandlerThrew && handlers(position, id, fields).Threw?
  }

  /** The number eight hexadecimal digits stand for. */
  function HexValue(s: string): nat {
    if s == "" then 0
    else
      var c := s[|s| - 1];
      16 * HexValue(s[..|s| - 1]) + if '0' <= c <= '9' then c as int - '0' as int else if 'a' <= c <= 'f' then c as int - 'a' as int + 10 else 0
  }

  lemma DigitValue(d: nat)
    requires d < 16
    ensures
      var c := HEX[d];
      d == if '0' <= c <= '9' then c as int - '0' as int else if 'a' <= c <= 'f' then c as int - 'a' as int + 10 else 0
  {
  }

  function Pow16(n: nat): nat { if n == 0 then 1 else 16 * Pow16(n - 1) }

  /** The digits in an error name the id. */
  lemma {:induction false} HexNames(v: nat, n: nat)
    requires v < Pow16(n)
    ensures |HexDigits(v, n)| == n && HexValue(HexDigits(v, n)) == v
  {
    if n > 0 {
      HexNames(v / 16, n - 1);
      DigitValue(v % 16);
      assert HexDigits(v, n)[..n - 1] == HexDigits(v / 16, n - 1);
    }
  }

  lemma ErrorNamesId(id: UInt32)
    ensures |HexDigits(id, 8)| == 8 && HexValue(HexDigits(id, 8)) == id
  {
    assert Pow16(4) == 0x1_0000 && Pow16(8) == 0x1_0000_0000;
    HexNames(id, 8);
  }

  lemma PongParts(msgId: Int64, fields: Bytes)
    requires |fields| >= 8
    ensures
      var r := Pong(msgId, ReadWord64(fields[..8]));
      |r| == 20 && r[..12] == Word32(0x347773C5) + Word64(msgId) && r[12..20] == fields[..8]
  {
    Word64Trip(0, fields[..8]);
  }

  lemma PingAnswers(msgId: Int64, fields: Bytes, delayed: bool)
    ensures
      var r := AnswerToPing(msgId, fields, delayed);
      if |fields| < 8 || (delayed && |fields| < 12) then r == Err(Malformed)
      else
        && r.Ok? && |r.value| == 20
        && r.value[..12] == Word32(0x347773C5) + Word64(msgId) && r.value[12..20] == fields[..8]
  {
    if |fields| >= 8 { PongParts(msgId, fields); }
  }

  /**
   Exactly the acknowledgements go unanswered; every other message gets the answer it is owed, or
   fails for one of the two reasons.
   */
  lemma DispatchAnswers(handlers: Handlers, position: nat, m: InnerMessage)
    ensures
      var r := Dispatch(handlers, position, m);
      match r
      case Ok(response) => if IsAck(m) then response == [] else AnswersTo(handlers, position, m, response)
      case Err(e) => Fails(handlers, position, m, e)
  {
    UnwrappedHasId(m.body);
    var u := Unwrap(m.body);
    if u.Ok? {
      var id, fields := ReadWord32(u.value[..4]), u.value[4..];
      if id == PING || id == PING_DELAY_DISCONNECT { PingAnswers(m.msgId, fields, id == PING_DELAY_DISCONNECT); }
    }
  }

  /** No answer is empty, and each begins with the id of a pong or a result and then its message's own id. */
  lemma AnswersCarryId(handlers: Handlers, position: nat, m: InnerMessage, r: Bytes)
    requires AnswersTo(handlers, position, m, r)
    ensures |r| >= 12 && (r[..4] == Word32(0x347773C5) || r[..4] == Word32(0xF35C6D01)) && r[4..12] == Word64(m.msgId)
  {
    if r[..12] == Word32(0x347773C5) + Word64(m.msgId) {
      assert r[..4] == r[..12][..4] && r[4..12] == r[..12][4..12];
    }
  }
}
