/** The parsed message and the fixed vocabulary of the wire format. */
module Messages {
  import opened Wrappers
  import opened Ints
  import opened Text

  datatype Role = Req | Resp | Evt | UnknownRole

  datatype MsgType =
    | Ping | Register | Start | Stop | Status | Reset | Fault | Error
    | Telemetry | Alarm | UnknownType

  /** A `has_x` flag with its field is an Option. The three doubles are kept in hundredths. */
  datatype Message = Message(
    role: Role, typ: MsgType,
    dev: Option<u32>, seqNo: Option<u32>, ok: Option<i32>, code: Option<i32>,
    state: Option<string>, msg: Option<string>,
    temp: Option<int>, pressure: Option<int>, flow: Option<int>)

  datatype Key = KDev | KSeq | KOk | KCode | KState | KMsg | KTemp | KPressure | KFlow | KUnknown

  const STATE_MAX := 31
  const MSG_MAX := 127

  function Blank(role: Role, typ: MsgType): Message {
    Message(role, typ, None, None, None, None, None, None, None, None, None)
  }

  function RoleFrom(s: string): Role {
    if s == "REQ" then Req else if s == "RESP" then Resp else if s == "EVT" then Evt else UnknownRole
  }

  function RoleText(r: Role): string {
    match r
    case Req => "REQ"
    case Resp => "RESP"
    case Evt => "EVT"
    case UnknownRole => "UNK"
  }

  function TypeFrom(s: string): MsgType {
    if s == "PING" then Ping
    else if s == "REGISTER" then Register
    else if s == "START" then Start
    else if s == "STOP" then Stop
    else if s == "STATUS" then Status
    else if s == "RESET" then Reset
    else if s == "FAULT" then Fault
    else if s == "TELEMETRY" then Telemetry
    else if s == "ALARM" then Alarm
    else if s == "ERROR" then Error
    else UnknownType
  }

  function TypeText(t: MsgType): string {
    match t
    case Ping => "PING"
    case Register => "REGISTER"
    case Start => "START"
    case Stop => "STOP"
    case Status => "STATUS"
    case Reset => "RESET"
    case Fault => "FAULT"
    case Telemetry => "TELEMETRY"
    case Alarm => "ALARM"
    case Error => "ERROR"
    case UnknownType => "UNKNOWN"
  }

  function KeyFrom(s: string): Key {
    if s == "dev" then KDev
    else if s == "seq" then KSeq
    else if s == "ok" then KOk
    else if s == "code" then KCode
    else if s == "state" then KState
    else if s == "msg" then KMsg
    else if s == "temp" then KTemp
    else if s == "pressure" then KPressure
    else if s == "flow" then KFlow
    else KUnknown
  }

  function KeyText(k: Key): string {
    match k
    case KDev => "dev"
    case KSeq => "seq"
    case KOk => "ok"
    case KCode => "code"
    case KState => "state"
    case KMsg => "msg"
    case KTemp => "temp"
    case KPressure => "pressure"
    case KFlow => "flow"
    case KUnknown => "?"
  }

  lemma RoleWords(r: Role)
    ensures RoleFrom(RoleText(r)) == r
    ensures RoleText(r) != "" && BlankFree(RoleText(r)) && NulFree(RoleText(r)) && LfFree(RoleText(r)) && |RoleText(r)| <= 4
  {
  }

  lemma TypeWords(t: MsgType)
    ensures TypeFrom(TypeText(t)) == t
  {
  }

  lemma TypeChars(t: MsgType)
    ensures TypeText(t) != "" && BlankFree(TypeText(t)) && NulFree(TypeText(t)) && LfFree(TypeText(t)) && |TypeText(t)| <= 9
  {
  }

  /** The words of the vocabulary are distinct tokens; the unknown role and type never parse back. */
  lemma Vocabulary(r: Role, t: MsgType)
    ensures RoleFrom(RoleText(r)) == r && TypeFrom(TypeText(t)) == t
    ensures RoleText(r) != "" && BlankFree(RoleText(r)) && NulFree(RoleText(r)) && LfFree(RoleText(r)) && |RoleText(r)| <= 4
    ensures TypeText(t) != "" && BlankFree(TypeText(t)) && NulFree(TypeText(t)) && LfFree(TypeText(t)) && |TypeText(t)| <= 9
  {
    RoleWords(r);
    TypeWords(t);
    TypeChars(t);
  }

  lemma KeyVocabulary(k: Key)
    ensures KeyFrom(KeyText(k)) == k
    ensures KeyText(k) != "" && BlankFree(KeyText(k)) && NulFree(KeyText(k)) && LfFree(KeyText(k))
    ensures forall i | 0 <= i < |KeyText(k)| :: KeyText(k)[i] != '='
  {
  }

  /** What the C struct can hold: NUL-free texts that fit `char[32]` and `char[128]`. */
  predicate Storable(m: Message) {
    && (m.state.Some? ==> |m.state.value| <= STATE_MAX && NulFree(m.state.value))
    && (m.msg.Some? ==> |m.msg.value| <= MSG_MAX && NulFree(m.msg.value))
  }

  predicate Known(m: Message) {
    m.role != UnknownRole && m.typ != UnknownType
  }

  predicate TextBlankFree(m: Message) {
    (m.state.Some? ==> BlankFree(m.state.value)) && (m.msg.Some? ==> BlankFree(m.msg.value))
  }

  predicate FloatFree(m: Message) {
    m.temp == None && m.pressure == None && m.flow == None
  }

  // ----- messages every node builds alike

  /** Bytes written to a connection. */
  datatype Packet = Packet(fd: int, line: string)

  /** A positive response to a request. */
  function OkReply(req: Message): Message {
    Blank(Resp, req.typ).(dev := req.dev, seqNo := req.seqNo, ok := Some(1))
  }

  /** An error response to a request. */
  function ErrorReply(req: Message, code: i32, text: string): Message {
    OkReply(req).(typ := Error, ok := Some(0), code := Some(code), msg := Some(text))
  }

  /** The response carries the request's sequence number and device. */
  predicate Echoes(req: Message, resp: Message) {
    resp.role == Resp && resp.seqNo == req.seqNo && resp.dev == req.dev
  }

  // ----- what a response tells its reader, field by field

  /** A plain yes: the request's own type, under its key, ok=1 and nothing else. */
  predicate IsConsent(r: Message, req: Message) {
    r == Message(Resp, req.typ, req.dev, req.seqNo, Some(1), None, None, None, None, None, None)
  }

  /** A no: ERROR under the request's key, ok=0, with a code and a text. */
  predicate IsRefusal(r: Message, req: Message, code: i32, text: string) {
    r == Message(Resp, Error, req.dev, req.seqNo, Some(0), Some(code), None, Some(text), None, None, None)
  }

  // ----- what identifies a request

  datatype Tag = Tag(seqNo: u32, dev: u32)

  predicate Tagged(m: Message, t: Tag) {
    m.seqNo == Some(t.seqNo) && m.dev == Some(t.dev)
  }

  predicate IsAnswer(m: Message, t: Tag) {
    m.role == Resp && Tagged(m, t)
  }

  predicate IsAsk(m: Message, t: Tag) {
    m.role == Req && m.typ != Register && Tagged(m, t)
  }

  /** One if it holds: used to count. */
  function AsNat(b: bool): nat {
    if b then 1 else 0
  }
}
