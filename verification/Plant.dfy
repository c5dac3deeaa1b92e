/** The whole plant: equipmentd, the PMC with its simulators, the TMC, and the lines between them. */
module Plant {
  import opened Wrappers
  import opened Ints
  import opened Text
  import opened Messages
  import opened Codec
  import opened Daemon
  import opened AuxLink
  import opened WireTrip
  import opened Correlation
  import C = Cluster
  import P = Pmc
  import T = Tmc
  import F = Fsm
  import S = Sim
  import Process = ProcessModel
  import Router

  /** The descriptors of the two controller connections in equipmentd. */
  datatype Ports = Ports(pmc: int, tmc: int)

  predicate PortsOk(q: Ports) {
    q.pmc >= 0 && q.tmc >= 0 && q.pmc != q.tmc
  }

  function Ctl(q: Ports): set<int> {
    {q.pmc, q.tmc}
  }

  datatype Plant = Plant(
    d: State,               // equipmentd
    pmcUp: bool,            // its connection to the PMC is open
    toPmc: seq<string>,     // lines on their way to the PMC
    sys: C.System,          // the PMC and its simulators; sys.toEqd is on its way to equipmentd
    tmcUp: bool,
    toTmc: seq<string>,
    tmc: T.Tmc,
    fromTmc: seq<Message>)

  const PMC_REGISTER := Blank(Req, Register).(seqNo := Some(1))
  const TMC_REGISTER := Blank(Req, Register).(dev := Some(100), seqNo := Some(1))
  const TMC_BUF := 1024

  /** Both controllers have connected and sent their REGISTER. */
  function Init(devs: seq<u32>, bootedAt: int): Plant {
    Plant(INIT, true, [], C.System(C.Init(devs).lines, [PMC_REGISTER]),
          true, [], T.Tmc(T.Idle, 0, bootedAt), [TMC_REGISTER, T.StatusEvt(T.Idle)])
  }

  datatype Act =
    | ClientSays(fd: int, line: string, now: int, wr: bool)   // any other connection sends any line
    | PmcSays(now: int, wr: bool)                             // equipmentd reads one message of the PMC
    | TmcSays(now: int, wr: bool)
    | Schedules(now: int, wr: bool)
    | Sweeps(now: int)
    | Leaves(fd: int)                                         // a client or controller closes
    | Drops(fd: int)                                          // the idle scan or an overflow closes one
    | PmcHears(note: Option<string>, aux: Option<AuxError>)   // the PMC reads one line of equipmentd
    | Inside(a: C.Action)                                     // between the PMC and its simulators
    | TmcHears(now: int, sentAt: int)
    | TmcTicks(now: int, at1: int, at2: int)

  /** A line of a client; only the controllers register themselves. */
  predicate ClientLine(q: Ports, fd: int, line: string) {
    fd >= 0 && fd !in Ctl(q) && (Parse(line).Some? ==> !IsAttach(Parse(line).value))
  }

  /** The PMC's printer refuses what does not fit its buffer; the TMC's too. */
  function HeadLine(ms: seq<Message>, cap: nat): Option<string> {
    if ms == [] then None else Format(ms[0], cap)
  }

  /** A controller's connection ends once. */
  predicate Connected(q: Ports, s: Plant, fd: int) {
    (fd == q.pmc ==> s.pmcUp) && (fd == q.tmc ==> s.tmcUp)
  }

  /** The input of equipmentd that an action offers, if it does. */
  function Offered(q: Ports, s: Plant, a: Act): Option<Input> {
    match a
    case ClientSays(fd, line, now, wr) => if ClientLine(q, fd, line) then Some(LineIn(fd, line, now, wr)) else None
    case PmcSays(now, wr) =>
      var h := HeadLine(s.sys.toEqd, P.OUTBUF);
      if s.pmcUp && h.Some? then Some(LineIn(q.pmc, h.value, now, wr)) else None
    case TmcSays(now, wr) =>
      var h := HeadLine(s.fromTmc, TMC_BUF);
      if s.tmcUp && h.Some? then Some(LineIn(q.tmc, h.value, now, wr)) else None
    case Schedules(now, wr) => Some(SchedulerIn(now, wr))
    case Sweeps(now) => Some(SweepIn(now))
    case Leaves(fd) => if Connected(q, s, fd) then Some(GoneIn(fd)) else None
    case Drops(fd) => if Connected(q, s, fd) then Some(DroppedIn(fd)) else None
    case _ => None
  }

  predicate Arrives(q: Ports, s: Plant, sent: seq<Packet>) {
    forall p | p in sent :: Connected(q, s, p.fd)
  }

  /** A write to a controller whose connection was closed fails. */
  function Attempted(q: Ports, s: Plant, e: Input): Input {
    if e.LineIn? then LineIn(e.fd, e.line, e.now, e.wr && Arrives(q, s, Step(s.d, LineIn(e.fd, e.line, e.now, true)).sent))
    else if e.SchedulerIn? then SchedulerIn(e.now, e.wr && Arrives(q, s, Step(s.d, SchedulerIn(e.now, true)).sent))
    else e
  }

  /** The input of equipmentd that an action is, if it is one. */
  function FedBy(q: Ports, s: Plant, a: Act): Option<Input> {
    match Offered(q, s, a)
    case None => None
    case Some(e) => Some(Attempted(q, s, e))
  }

  function Tail<X>(s: seq<X>): seq<X> {
    if s == [] then [] else s[1..]
  }

  /** Reading takes the message off its channel. */
  function Taken(s: Plant, a: Act): Plant {
    if a.PmcSays? && s.pmcUp then s.(sys := C.System(s.sys.lines, Tail(s.sys.toEqd)))
    else if a.TmcSays? && s.tmcUp then s.(fromTmc := Tail(s.fromTmc))
    else s
  }

  /** The line of a packet, if it is for fd; a step of equipmentd writes one packet at most. */
  function LinesTo(sent: seq<Packet>, fd: int): seq<string> {
    if sent != [] && sent[0].fd == fd then [sent[0].line] else []
  }

  predicate Cuts(e: Input, o: Outcome, fd: int) {
    (e.LineIn? && e.fd == fd && o.ret < 0) || (e.GoneIn? && e.fd == fd) || (e.DroppedIn? && e.fd == fd)
  }

  function Fed(q: Ports, s: Plant, e: Input): Plant {
    var o := Step(s.d, e);
    s.(d := o.st,
       pmcUp := s.pmcUp && !Cuts(e, o, q.pmc), toPmc := s.toPmc + LinesTo(o.sent, q.pmc),
       tmcUp := s.tmcUp && !Cuts(e, o, q.tmc), toTmc := s.toTmc + LinesTo(o.sent, q.tmc))
  }

  /** What the PMC may add to a cached status: a short text without blanks. */
  predicate NoteOk(note: Option<string>) {
    note.Some? ==> |note.value| <= MSG_MAX && Plain(note.value)
  }

  /** Whatever the serial device reports, a temperature that prints as a short plain text makes such a note. */
  lemma NotesAreOk(s: Snapshot)
    requires s.temp.Some? ==> |s.temp.value| <= 100 && Plain(s.temp.value)
    ensures NoteOk(NoteOf(s))
  {
    NoteWords();
    if s.temp.Some? {
      var x := s.temp.value;
      PlainConcat(x, "C");
      PlainConcat("aux_temp_", x + "C");
      PlainConcat("aux_ON_", x + "C");
      PlainConcat("aux_OFF_", x + "C");
      assert "aux_temp_" + x + "C" == "aux_temp_" + (x + "C");
      assert "aux_ON_" + x + "C" == "aux_ON_" + (x + "C") && "aux_OFF_" + x + "C" == "aux_OFF_" + (x + "C");
    }
  }

  lemma NoteWords()
    ensures Plain("aux_ON") && Plain("aux_OFF") && Plain("aux_temp_") && Plain("aux_ON_") && Plain("aux_OFF_") && Plain("C")
  {
  }

  lemma PlainConcat(a: string, b: string)
    requires Plain(a) && Plain(b)
    ensures Plain(a + b)
  {
    assert forall i | 0 <= i < |a + b| :: (a + b)[i] == if i < |a| then a[i] else b[i - |a|];
  }

  function PmcHeard(s: Plant, note: Option<string>, aux: Option<AuxError>): Plant
    requires s.toPmc != []
  {
    var s' := s.(toPmc := s.toPmc[1..]);
    match Parse(s.toPmc[0])
    case None => s'
    case Some(m) => s'.(sys := C.Asked(s.sys, m, note, aux))
  }

  /** The TMC drops its acknowledgement, what it cannot read, and what is for another device. */
  predicate ForTmc(m: Message) {
    !(m.role == Resp && m.typ == Register && m.ok == Some(1)) && (m.dev.Some? ==> m.dev.value == T.DEV_ID)
  }

  function TmcHeard(s: Plant, now: int, sentAt: int): Plant
    requires s.toTmc != []
  {
    var s' := s.(toTmc := s.toTmc[1..]);
    var r := Parse(s.toTmc[0]);
    if r.None? || !ForTmc(r.value) then s'
    else
      var o := T.Handled(s.tmc, r.value, now, sentAt, true, true);
      s'.(tmc := o.t, fromTmc := s.fromTmc + o.sent)
  }

  function TmcTicked(s: Plant, now: int, at1: int, at2: int): Plant {
    var o := T.Ticked(s.tmc, now, at1, at2, true, true);
    s.(tmc := o.t, fromTmc := s.fromTmc + o.sent)
  }

  function InsideMoved(s: Plant, x: C.Action): Plant {
    s.(sys := C.Step(s.sys, x))
  }

  function Elsewhere(s: Plant, a: Act): Plant {
    match a
    case PmcHears(note, aux) => if s.toPmc != [] && NoteOk(note) then PmcHeard(s, note, aux) else s
    case Inside(x) => if x.EqdAsks? then s else InsideMoved(s, x)
    case TmcHears(now, sentAt) => if s.toTmc != [] then TmcHeard(s, now, sentAt) else s
    case TmcTicks(now, at1, at2) => TmcTicked(s, now, at1, at2)
    case _ => s
  }

  function Next(q: Ports, s: Plant, a: Act): Plant {
    match FedBy(q, s, a)
    case Some(e) => Fed(q, Taken(s, a), e)
    case None => Elsewhere(Taken(s, a), a)
  }

  function Run(q: Ports, devs: seq<u32>, bootedAt: int, acts: seq<Act>): Plant {
    if acts == [] then Init(devs, bootedAt)
    else Next(q, Run(q, devs, bootedAt, acts[..|acts| - 1]), acts[|acts| - 1])
  }

  /** The inputs of equipmentd among the actions of a run. */
  function Inputs(q: Ports, devs: seq<u32>, bootedAt: int, acts: seq<Act>): seq<Input> {
    if acts == [] then []
    else
      var as0 := acts[..|acts| - 1];
      match FedBy(q, Run(q, devs, bootedAt, as0), acts[|acts| - 1])
      case None => Inputs(q, devs, bootedAt, as0)
      case Some(e) => Inputs(q, devs, bootedAt, as0) + [e]
  }

  // ----- requests and responses with a tag, in the channels

  predicate AskLine(line: string, t: Tag) {
    Parse(line).Some? && IsAsk(Parse(line).value, t)
  }

  function AskLines(ls: seq<string>, t: Tag): nat {
    if ls == [] then 0 else AsNat(AskLine(ls[0], t)) + AskLines(ls[1..], t)
  }

  lemma {:induction false} AskLinesAppend(a: seq<string>, b: seq<string>, t: Tag)
    ensures AskLines(a + b, t) == AskLines(a, t) + AskLines(b, t)
  {
    if a == [] {
      assert a + b == b;
    } else {
      assert (a + b)[1..] == a[1..] + b;
      AskLinesAppend(a[1..], b, t);
    }
  }

  /** Everything with the tag on a controller's side: requests to it and to its simulators, responses back. */
  function PmcSide(s: Plant, t: Tag): nat {
    AskLines(s.toPmc, t) + C.Flight(s.sys, t)
  }

  function TmcSide(s: Plant, t: Tag): nat {
    AskLines(s.toTmc, t) + C.Answers(s.fromTmc, t)
  }

  function Flight(s: Plant, t: Tag): nat {
    PmcSide(s, t) + TmcSide(s, t)
  }

  /** What is on its way, and what is behind a link that was cut. */
  function OnItsWay(s: Plant, t: Tag): nat {
    (if s.pmcUp then PmcSide(s, t) else 0) + (if s.tmcUp then TmcSide(s, t) else 0)
  }

  function Stranded(s: Plant, t: Tag): nat {
    (if s.pmcUp then 0 else PmcSide(s, t)) + (if s.tmcUp then 0 else TmcSide(s, t))
  }

  // ----- what travels

  /** A message that is printed as one clean line; a response comes back from it as it was. */
  predicate Fine(m: Message) {
    Storable(m) && Known(m) && TextBlankFree(m) && (m.role == Resp ==> Wirable(m))
  }

  predicate FromPmcOk(m: Message) {
    Fine(m) && (m.role == Req ==> m.typ == Register && m.dev.None?)
  }

  predicate FromTmcOk(m: Message) {
    Fine(m) && (m.role == Req ==> m.typ == Register && m.dev == Some(100))
  }

  predicate ToPmcOk(line: string) {
    Parse(line).Some? ==>
      var m := Parse(line).value;
      && SurvivesHop(m)
      && ((m.role == Req && Router.IsDeviceCommand(m.typ)) || m.typ == Register || m.seqNo.None?)
  }

  predicate ToTmcOk(line: string) {
    Parse(line).Some? ==>
      var m := Parse(line).value;
      (m.role == Req && Router.IsDeviceCommand(m.typ) && m.dev == Some(100)) || m.role == Resp
  }

  predicate LineOk(l: C.Line) {
    && (forall m | m in l.up :: Fine(m) && m.role != Req)
    && (forall m | m in l.down :: m.typ != UnknownType && SurvivesHop(m))
  }

  predicate SysOk(s: C.System) {
    && C.Inv(s) && (forall i | 0 <= i < |s.lines| :: LineOk(s.lines[i]))
    && (forall m | m in s.toEqd :: FromPmcOk(m))
  }

  lemma PlainReply(m: Message)
    requires Storable(m) && Known(m) && FloatFree(m)
    requires m.state.Some? ==> BlankFree(m.state.value) && EolFree(m.state.value)
    requires m.msg.Some? ==> BlankFree(m.msg.value) && EolFree(m.msg.value)
    ensures Fine(m) && Wirable(m)
  {
    FloatFreeSize(m);
  }

  lemma StateTextPlain(x: F.SimState)
    ensures var s := F.StateText(x); |s| <= STATE_MAX && BlankFree(s) && EolFree(s) && NulFree(s) && LfFree(s)
  {
  }

  // ----- the PMC's side keeps its channels clean

  lemma SessionNotReadyText()
    ensures Plain("AUX_SESSION_NOT_READY")
  {
  }

  lemma PingFailedText()
    ensures Plain("AUX_PING_FAILED")
  {
  }

  lemma PingBadReplyText()
    ensures Plain("AUX_PING_BAD_REPLY")
  {
  }

  lemma HeaterOnFailedText()
    ensures Plain("AUX_HEATER_ON_FAILED")
  {
  }

  lemma HeaterOnBadReplyText()
    ensures Plain("AUX_HEATER_ON_BAD_REPLY")
  {
  }

  lemma HeaterOffFailedText()
    ensures Plain("AUX_HEATER_OFF_FAILED")
  {
  }

  lemma HeaterOffBadReplyText()
    ensures Plain("AUX_HEATER_OFF_BAD_REPLY")
  {
  }

  lemma AuxTextPlain(e: AuxError)
    ensures Plain(ErrorText(e)) && |ErrorText(e)| <= MSG_MAX
  {
    match e
    case SessionNotReady => SessionNotReadyText();
    case PingFailed => PingFailedText();
    case PingBadReply => PingBadReplyText();
    case HeaterOnFailed => HeaterOnFailedText();
    case HeaterOnBadReply => HeaterOnBadReplyText();
    case HeaterOffFailed => HeaterOffFailedText();
    case HeaterOffBadReply => HeaterOffBadReplyText();
  }

  lemma RefusalFine(m: Message, e: AuxError)
    ensures FromPmcOk(P.AuxRefusal(m, e))
  {
    AuxTextPlain(e);
    ErrorReplyFine(m, 502, ErrorText(e));
  }

  lemma ErrorReplyFine(m: Message, code: i32, text: string)
    requires |text| <= MSG_MAX && BlankFree(text) && EolFree(text) && NulFree(text)
    ensures FromPmcOk(ErrorReply(m, code, text)) && FromTmcOk(ErrorReply(m, code, text))
  {
    PlainReply(ErrorReply(m, code, text));
  }

  lemma StatusReplyFine(m: Message, cached: Option<string>, note: Option<string>)
    requires NoteOk(note) && C.CacheOk(cached)
    ensures FromPmcOk(P.StatusReply(m, cached, note))
  {
    var r := P.StatusReply(m, cached, note);
    if cached.Some? {
      var x: F.SimState :| Process.Reportable(x) && cached == Some(F.StateText(x));
      StateTextPlain(x);
      C.TextFits(x);
    }
    assert BlankFree("UNKNOWN") && EolFree("UNKNOWN") && NulFree("UNKNOWN");
    PlainReply(r);
  }

  lemma VerdictFine(target: Option<P.Peer>, m: Message, note: Option<string>, aux: Option<AuxError>)
    requires NoteOk(note) && C.CacheOk(P.CachedOf(target))
    ensures var v := P.VerdictOn(target, m, note, aux); v.ToAsker? ==> FromPmcOk(v.reply)
  {
    match P.Action(target, m)
    case RespondCached => StatusReplyFine(m, P.CachedOf(target), note);
    case RejectMissingDev => ErrorReplyFine(m, 400, "MISSING_DEV");
    case RejectSimNotFound => ErrorReplyFine(m, 404, "SIM_NOT_FOUND");
    case RejectInterlock => ErrorReplyFine(m, 409, "PMC_INTERLOCK_BLOCKED");
    case RouteToSim =>
      if aux.Some? {
        RefusalFine(m, aux.value);
      }
  }

  /** The channels after a request: one message more to equipmentd, or to the simulator. */
  lemma AskedLines(s: C.System, m: Message, note: Option<string>, aux: Option<AuxError>, i: nat)
    requires SysOk(s) && m.typ != UnknownType && SurvivesHop(m)
    requires i < |C.Asked(s, m, note, aux).lines|
    ensures |C.Asked(s, m, note, aux).lines| == |s.lines| && LineOk(C.Asked(s, m, note, aux).lines[i])
  {
    var k := C.TargetLine(s, m);
    if k < |s.lines| {
      LineTakes(s.lines[k], m);
    }
  }

  lemma LineTakes(l: C.Line, m: Message)
    requires LineOk(l) && m.typ != UnknownType && SurvivesHop(m)
    ensures LineOk(l.(down := l.down + [m]))
  {
  }

  lemma AskedReplies(s: C.System, m: Message, note: Option<string>, aux: Option<AuxError>)
    requires SysOk(s) && NoteOk(note)
    ensures forall x | x in C.Asked(s, m, note, aux).toEqd :: FromPmcOk(x)
  {
    assert C.CacheOk(P.CachedOf(C.TargetConn(s, m)));
    VerdictFine(C.TargetConn(s, m), m, note, aux);
  }

  lemma AskedOk(s: C.System, m: Message, note: Option<string>, aux: Option<AuxError>)
    requires SysOk(s) && NoteOk(note) && m.typ != UnknownType && SurvivesHop(m)
    ensures SysOk(C.Asked(s, m, note, aux))
  {
    C.InvAsked(s, m, note, aux);
    AskedReplies(s, m, note, aux);
    forall i | 0 <= i < |C.Asked(s, m, note, aux).lines|
      ensures LineOk(C.Asked(s, m, note, aux).lines[i])
    {
      AskedLines(s, m, note, aux, i);
    }
  }

  lemma ReplyFine(devId: u32, req: Message, ok: bool)
    requires req.typ != UnknownType
    ensures Fine(S.Reply(devId, req, ok)) && S.Reply(devId, req, ok).role == Resp
  {
    assert BlankFree("SIM_CMD_FAILED") && EolFree("SIM_CMD_FAILED") && NulFree("SIM_CMD_FAILED");
    PlainReply(S.Reply(devId, req, ok));
  }

  lemma {:induction false} BatchFine(devId: u32, f: F.Fsm, ins: seq<Message>)
    requires forall m | m in ins :: m.typ != UnknownType
    ensures forall m | m in S.Batch(devId, f, ins).outs :: Fine(m) && m.role == Resp
  {
    if ins != [] {
      var n := |ins| - 1;
      var b := S.Batch(devId, f, ins[..n]);
      assert ins[n] in ins && forall m | m in ins[..n] :: m in ins;
      BatchFine(devId, f, ins[..n]);
      ReplyFine(devId, ins[n], F.Accepts(b.fsm.state, S.CmdOf(ins[n].typ)));
    }
  }

  lemma ReportsFine(n: S.Node, ins: seq<Message>)
    requires forall m | m in ins :: m.typ != UnknownType
    ensures forall m | m in S.Reports(n, ins) :: Fine(m) && m.role != Req
  {
    BatchFine(n.devId, n.fsm, ins);
    StateTextPlain(S.NextNode(n, ins).last);
  }

  lemma IteratedOk(l: C.Line, k: nat)
    requires LineOk(l) && k <= |l.down|
    ensures LineOk(C.Iterated(l, k))
  {
    assert forall m | m in l.down[..k] :: m in l.down;
    assert forall m | m in l.down[k..] :: m in l.down;
    ReportsFine(l.node, l.down[..k]);
  }

  lemma InsideOk(s: C.System, a: C.Action)
    requires SysOk(s) && !a.EqdAsks?
    ensures SysOk(C.Step(s, a))
  {
    C.InvStep(s, a);
    if C.Enabled(s, a) {
      match a
      case SimIterates(i, k) => IteratedOk(s.lines[i], k);
      case PmcReads(i) =>
        var l := s.lines[i];
        assert l.up[0] in l.up && forall m | m in l.up[1..] :: m in l.up;
    }
  }

  // ----- the TMC's side

  lemma TmcTextPlain(x: T.TmcState)
    ensures var s := T.StateText(x); |s| <= STATE_MAX && BlankFree(s) && EolFree(s) && NulFree(s)
  {
  }

  lemma TmcReplyFine(m: Message, x: T.TmcState)
    requires m.typ != UnknownType
    ensures FromTmcOk(OkReply(m)) && FromTmcOk(T.StatusReply(m, x)) && FromTmcOk(T.StatusEvt(x))
  {
    TmcTextPlain(x);
    PlainReply(OkReply(m));
    PlainReply(T.StatusReply(m, x));
    PlainReply(T.StatusEvt(x));
  }

  lemma TmcHandledFine(s: T.Tmc, m: Message, now: int, sentAt: int)
    requires m.typ != UnknownType
    ensures forall x | x in T.Handled(s, m, now, sentAt, true, true).sent :: FromTmcOk(x)
  {
    if m.role == Req {
      TmcReplyFine(m, s.state);
      TmcReplyFine(m, T.Commanded(s, m.typ, now).state);
      UnknownTypeFine(m);
      InvalidTransitionFine(m);
      TmcSends(s, m, now, sentAt);
    }
  }

  lemma UnknownTypeFine(m: Message)
    ensures FromTmcOk(ErrorReply(m, 404, "UNKNOWN_TYPE"))
  {
    ErrorReplyFine(m, 404, "UNKNOWN_TYPE");
  }

  lemma InvalidTransitionFine(m: Message)
    ensures FromTmcOk(ErrorReply(m, 409, "INVALID_STATE_TRANSITION"))
  {
    var text := "INVALID_STATE_TRANSITION";
    assert BlankFree(text) && EolFree(text) && NulFree(text);
    ErrorReplyFine(m, 409, text);
  }

  lemma TmcSends(s: T.Tmc, m: Message, now: int, sentAt: int)
    requires m.role == Req
    ensures T.Handled(s, m, now, sentAt, true, true).sent in
              {[T.StatusReply(m, s.state)], [ErrorReply(m, 404, "UNKNOWN_TYPE")],
               [ErrorReply(m, 409, "INVALID_STATE_TRANSITION")],
               [OkReply(m), T.StatusEvt(T.Commanded(s, m.typ, now).state)]}
  {
  }

  lemma TmcTickedFine(s: T.Tmc, now: int, at1: int, at2: int)
    ensures forall x | x in T.Ticked(s, now, at1, at2, true, true).sent :: FromTmcOk(x) && x.role == Evt
  {
    TmcReplyFine(PMC_REGISTER, s.state);
    TmcReplyFine(PMC_REGISTER, T.Done);
    TickSends(s, now, at1, at2);
  }

  lemma TickSends(s: T.Tmc, now: int, at1: int, at2: int)
    ensures forall x | x in T.Ticked(s, now, at1, at2, true, true).sent :: x == T.StatusEvt(T.Done) || x == T.StatusEvt(s.state)
  {
  }

  /** The TMC answers each request with exactly one response, under its tag. */
  lemma TmcAnswersOnce(s: T.Tmc, m: Message, now: int, sentAt: int, t: Tag)
    requires m.role == Req ==> m.typ != Register
    ensures C.Answers(T.Handled(s, m, now, sentAt, true, true).sent, t) == AsNat(IsAsk(m, t))
  {
    var out := T.Handled(s, m, now, sentAt, true, true).sent;
    if m.role == Req {
      C.AnswersHead(out, t);
      assert IsAnswer(out[0], t) <==> IsAsk(m, t);
      if |out| == 2 {
        assert out[1..] == [out[1]];
        C.AnswersOne(out[1], t);
      } else {
        assert out[1..] == [];
      }
    }
  }

  lemma {:induction false} EventsAnswerNothing(ms: seq<Message>, t: Tag)
    requires forall m | m in ms :: m.role == Evt
    ensures C.Answers(ms, t) == 0
  {
    if ms != [] {
      var n := |ms| - 1;
      assert ms[n] in ms;
      EventsAnswerNothing(ms[..n], t);
    }
  }
}
