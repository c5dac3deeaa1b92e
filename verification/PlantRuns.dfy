/** What every run of the whole plant keeps: each forwarded request is answered, once, to the client that asked. */
module PlantRuns {
  import opened Wrappers
  import opened Ints
  import opened Text
  import opened Messages
  import opened Codec
  import opened Tracker
  import opened Daemon
  import opened DaemonRuns
  import opened TagRuns
  import opened Plant
  import WireTrip
  import Router
  import AuxLink
  import Fsm
  import Sim
  import Links
  import C = Cluster
  import P = Pmc
  import T = Tmc

  // ----- what equipmentd may be fed, and what it then writes to the controllers

  predicate LinksOk(q: Ports, st: State) {
    && (st.pmcFd == -1 || st.pmcFd == q.pmc) && (st.tmcFd == -1 || st.tmcFd == q.tmc)
    && forall i | 0 <= i < |st.slots| && st.slots[i].Some? :: st.slots[i].value.clientFd !in Ctl(q)
  }

  /** The message attaches the controller that sent it, or is no request. */
  predicate ControllerSays(q: Ports, fd: int, m: Message) {
    && Fine(m)
    && (m.role == Req ==> IsAttach(m) && (fd == q.pmc ==> m.dev.None?) && (fd == q.tmc ==> m.dev == Some(100)))
  }

  predicate Feedable(q: Ports, e: Input) {
    match e
    case LineIn(fd, line, _, _) =>
      if fd in Ctl(q) then Parse(line).Some? ==> ControllerSays(q, fd, Parse(line).value)
      else ClientLine(q, fd, line)
    case _ => true
  }

  lemma StripKeepsTag(m: Message)
    ensures var r := StripLast(m); r.role == m.role && r.typ == m.typ && r.seqNo == m.seqNo && r.dev == m.dev
  {
  }

  /** A printed request is read back under its tag, if it can be read at all. */
  lemma PrintedAsk(m: Message, t: Tag)
    requires Sound(m)
    ensures AskLine(Render(m), t) <==> Parse(Render(m)).Some? && IsAsk(m, t)
    ensures Parse(Render(m)).Some? ==>
              var r := Parse(Render(m)).value;
              r.role == m.role && r.typ == m.typ && r.seqNo == m.seqNo && r.dev == m.dev && Known(r) && SurvivesHop(r)
  {
    ParseOfRender(m);
    if Parse(Render(m)).Some? {
      LaterHopsLoseNothing(m);
    }
    StripKeepsTag(m);
  }

  /** The line is the acknowledgement of a REGISTER, or of a line that could not be read. */
  ghost predicate IsAck(line: string) {
    line == Render(Router.PARSE_ERROR) || exists m :: Fine(m) && IsAttach(m) && line == Render(OkReply(m))
  }

  lemma InsertWrites(q: Ports, st: State, e: Input)
    requires LinksOk(q, st) && MoveOf(st, e).Insert?
    ensures var p := MoveOf(st, e).p;
            && Step(st, e).sent == [Packet(if p.dev == 100 then q.tmc else q.pmc, Render(InsertMessage(st, e)))]
            && Sound(InsertMessage(st, e)) && InsertMessage(st, e).role == Req
            && Router.IsDeviceCommand(InsertMessage(st, e).typ)
            && Tagged(InsertMessage(st, e), Tag(p.seqNo, p.dev))
  {
    InsertSends(st, e);
  }

  lemma OtherWrites(q: Ports, st: State, e: Input)
    requires PortsOk(q) && LinksOk(q, st) && Feedable(q, e) && !MoveOf(st, e).Insert?
    ensures var sent := Step(st, e).sent;
            sent == [] || sent[0].fd !in Ctl(q) || (|sent| == 1 && IsAck(sent[0].line))
  {
    if MoveOf(st, e).Release? {
      ReleaseSends(st, e);
    } else if !e.LineIn? {
      NonLineSends(st, e);
    } else if Parse(e.line).None? {
      BadLine(st, e);
    } else {
      QuietLine(st, e, Parse(e.line).value);
    }
  }

  lemma AckIsNoAsk(line: string, t: Tag)
    requires IsAck(line)
    ensures !AskLine(line, t) && ToPmcOk(line) && ToTmcOk(line)
  {
    if line == Render(Router.PARSE_ERROR) {
      ErrorLine(t);
    } else {
      var m :| Fine(m) && IsAttach(m) && line == Render(OkReply(m));
      AttachAck(m, t);
    }
  }

  lemma AttachAck(m: Message, t: Tag)
    requires IsAttach(m)
    ensures var line := Render(OkReply(m)); !AskLine(line, t) && ToPmcOk(line) && ToTmcOk(line)
  {
    PrintedAsk(OkReply(m), t);
  }

  lemma ErrorLine(t: Tag)
    ensures var line := Render(Router.PARSE_ERROR); !AskLine(line, t) && ToPmcOk(line) && ToTmcOk(line)
  {
    assert BlankFree("PARSE_ERROR") && NulFree("PARSE_ERROR");
    PrintedAsk(Router.PARSE_ERROR, t);
  }

  lemma OneLine(line: string, t: Tag)
    ensures AskLines([line], t) == AsNat(AskLine(line, t)) && AskLines([], t) == 0
  {
    assert [line][1..] == [];
  }

  /** The requests with the tag that a step writes to the controllers: the one it took, if that can be read. */
  lemma AsksWritten(q: Ports, st: State, e: Input, t: Tag)
    requires PortsOk(q) && LinksOk(q, st) && Feedable(q, e)
    ensures var sent := Step(st, e).sent;
            AskLines(LinesTo(sent, q.pmc), t) + AskLines(LinesTo(sent, q.tmc), t)
            == AsNat(TakesTag(st, e, t) && Parse(Render(InsertMessage(st, e))).Some?)
  {
    var sent := Step(st, e).sent;
    if sent != [] {
      OneLine(sent[0].line, t);
    }
    if MoveOf(st, e).Insert? {
      InsertWrites(q, st, e);
      PrintedAsk(InsertMessage(st, e), t);
    } else {
      OtherWrites(q, st, e);
      if sent != [] && sent[0].fd in Ctl(q) {
        AckIsNoAsk(sent[0].line, t);
      }
    }
  }

  lemma InsertLineOk(q: Ports, st: State, e: Input)
    requires LinksOk(q, st) && MoveOf(st, e).Insert?
    ensures var line := Render(InsertMessage(st, e));
            ToPmcOk(line) && (MoveOf(st, e).p.dev == 100 ==> ToTmcOk(line))
  {
    InsertWrites(q, st, e);
    PrintedAsk(InsertMessage(st, e), Tag(0, 0));
  }

  /** What is written towards the controllers is what they expect. */
  lemma LinesWrittenOk(q: Ports, st: State, e: Input)
    requires PortsOk(q) && LinksOk(q, st) && Feedable(q, e)
    ensures var sent := Step(st, e).sent;
            && (forall l | l in LinesTo(sent, q.pmc) :: ToPmcOk(l)) && (forall l | l in LinesTo(sent, q.tmc) :: ToTmcOk(l))
  {
    var sent := Step(st, e).sent;
    if MoveOf(st, e).Insert? {
      InsertWrites(q, st, e);
      InsertLineOk(q, st, e);
    } else {
      OtherWrites(q, st, e);
      if sent != [] && sent[0].fd in Ctl(q) {
        AckIsNoAsk(sent[0].line, Tag(0, 0));
      }
    }
  }

  // ----- the links of equipmentd

  lemma InsertedByClient(q: Ports, st: State, e: Input)
    requires LinksOk(q, st) && PortsOk(q) && Feedable(q, e) && MoveOf(st, e).Insert?
    ensures MoveOf(st, e).p.clientFd !in Ctl(q)
  {
    InsertSends(st, e);
  }

  lemma SlotsKept(q: Ports, st: State, e: Input)
    requires PortsOk(q) && LinksOk(q, st) && Feedable(q, e)
    ensures var s' := Step(st, e).st.slots;
            |s'| == |st.slots| && forall i | 0 <= i < |s'| && s'[i].Some? :: s'[i].value.clientFd !in Ctl(q)
  {
    StepMoves(st, e);
    if MoveOf(st, e).Insert? {
      InsertedByClient(q, st, e);
    }
  }

  predicate Registers(e: Input, port: int, l: Links.Link) {
    e.LineIn? && e.fd == port && Parse(e.line).Some? && Links.IsAttachOf(Parse(e.line).value, l)
  }

  /** The link after a step: attached by its controller, lost when that controller's line fails, else as before. */
  lemma LinkMoves(q: Ports, st: State, e: Input, l: Links.Link)
    requires PortsOk(q) && LinksOk(q, st) && Feedable(q, e)
    ensures var port := if l.TmcLink? then q.tmc else q.pmc;
            var f, f' := Links.LinkFd(st, l), Links.LinkFd(Step(st, e).st, l);
            && (f' == f || f' == port || f' == -1)
            && (!Cuts(e, Step(st, e), port) && f == port ==> f' == port)
            && (!Cuts(e, Step(st, e), port) && Registers(e, port, l) ==> f' == port)
  {
    if e.LineIn? {
      Links.LineLinks(st, e, Parse(e.line), l);
    } else {
      OtherLinks(st, e, l);
    }
  }

  lemma OtherLinks(st: State, e: Input, l: Links.Link)
    requires !e.LineIn?
    ensures Links.LinkFd(Step(st, e).st, l) == if e.GoneIn? && Links.LinkFd(st, l) == e.fd then -1 else Links.LinkFd(st, l)
  {
  }

  lemma LinksKept(q: Ports, st: State, e: Input)
    requires PortsOk(q) && LinksOk(q, st) && Feedable(q, e)
    ensures LinksOk(q, Step(st, e).st)
  {
    LinkMoves(q, st, e, Links.PmcLink);
    LinkMoves(q, st, e, Links.TmcLink);
    SlotsKept(q, st, e);
  }

  // ----- the plant's invariant

  /** A controller whose REGISTER has not been read yet has said nothing else that was read. */
  predicate Enrolled(q: Ports, s: Plant) {
    && (s.pmcUp ==> s.d.pmcFd == q.pmc || (s.sys.toEqd != [] && s.sys.toEqd[0] == PMC_REGISTER))
    && (s.tmcUp ==> s.d.tmcFd == q.tmc || (s.fromTmc != [] && s.fromTmc[0] == TMC_REGISTER))
  }

  predicate ChannelsFine(s: Plant) {
    && SysOk(s.sys) && (forall m | m in s.fromTmc :: FromTmcOk(m))
    && (forall l | l in s.toPmc :: ToPmcOk(l)) && (forall l | l in s.toTmc :: ToTmcOk(l))
  }

  predicate Inv(q: Ports, s: Plant) {
    PortsOk(q) && LinksOk(q, s.d) && ChannelsFine(s) && Enrolled(q, s)
  }

  /** A printed message of a controller says what the controller may say. */
  lemma PrintedSays(q: Ports, fd: int, m: Message)
    requires fd in Ctl(q) && PortsOk(q) && (if fd == q.pmc then FromPmcOk(m) else FromTmcOk(m))
    ensures Parse(Render(m)).Some? ==>
              ControllerSays(q, fd, Parse(Render(m)).value) && Parse(Render(m)).value.role == m.role
    ensures m.role == Resp ==> Parse(Render(m)) == Some(m)
    ensures m.role == Req ==> Parse(Render(m)).Some? ==> Parse(Render(m)).value.dev == m.dev
  {
    ParseOfRender(m);
    StripLastId(m);
    StripKeepsTag(m);
    if m.role == Resp {
      WireTrip.WirableReturns(m);
    }
  }

  lemma HeadSays(q: Ports, fd: int, ms: seq<Message>, cap: nat, now: int, wr: bool, t: Tag)
    requires PortsOk(q) && fd in Ctl(q) && ms != [] && Format(ms[0], cap).Some?
    requires if fd == q.pmc then FromPmcOk(ms[0]) else FromTmcOk(ms[0])
    ensures HeadLine(ms, cap) == Some(Render(ms[0]))
    ensures var e := LineIn(fd, Render(ms[0]), now, wr);
            Feedable(q, e) && (AnswerFrom(e, Ctl(q), t) <==> IsAnswer(ms[0], t))
  {
    PrintedSays(q, fd, ms[0]);
  }

  /** The outcome of the write aside, what is fed is what was offered. */
  lemma AttemptedSame(q: Ports, s: Plant, e: Input, t: Tag)
    ensures var e' := Attempted(q, s, e);
            && (Feedable(q, e') <==> Feedable(q, e)) && (AnswerFrom(e', Ctl(q), t) <==> AnswerFrom(e, Ctl(q), t))
            && (e.LineIn? ==> e'.LineIn? && e'.fd == e.fd && e'.line == e.line)
            && (!e.LineIn? && !e.SchedulerIn? ==> e' == e)
  {
  }

  /** What is fed to equipmentd is feedable, and a response with the tag leaves its channel. */
  lemma FedOne(q: Ports, s: Plant, a: Act, t: Tag)
    requires Inv(q, s) && FedBy(q, s, a).Some?
    ensures var e := FedBy(q, s, a).value;
            Feedable(q, e) && Flight(Taken(s, a), t) + AsNat(AnswerFrom(e, Ctl(q), t)) == Flight(s, t)
  {
    AttemptedSame(q, s, Offered(q, s, a).value, t);
    OfferedOne(q, s, a, t);
  }

  lemma OfferedOne(q: Ports, s: Plant, a: Act, t: Tag)
    requires Inv(q, s) && Offered(q, s, a).Some?
    ensures var e := Offered(q, s, a).value;
            Feedable(q, e) && Flight(Taken(s, a), t) + AsNat(AnswerFrom(e, Ctl(q), t)) == Flight(s, t)
  {
    match a
    case PmcSays(now, wr) =>
      assert s.sys.toEqd[0] in s.sys.toEqd;
      HeadSays(q, q.pmc, s.sys.toEqd, P.OUTBUF, now, wr, t);
      C.AnswersHead(s.sys.toEqd, t);
    case TmcSays(now, wr) =>
      assert s.fromTmc[0] in s.fromTmc;
      HeadSays(q, q.tmc, s.fromTmc, TMC_BUF, now, wr, t);
      C.AnswersHead(s.fromTmc, t);
    case _ =>
  }

  lemma TailIn<X>(s: seq<X>)
    ensures forall x | x in Tail(s) :: x in s
  {
  }

  lemma TakenFine(s: Plant, a: Act)
    requires ChannelsFine(s)
    ensures ChannelsFine(Taken(s, a)) && Taken(s, a).d == s.d
  {
    TailIn(s.sys.toEqd);
    TailIn(s.fromTmc);
  }

  /** A message that cannot be printed is no response. */
  lemma DroppedHead(s: Plant, a: Act, q: Ports, t: Tag)
    requires Inv(q, s) && FedBy(q, s, a).None?
    ensures Flight(Taken(s, a), t) == Flight(s, t)
  {
    if a.PmcSays? && s.pmcUp && s.sys.toEqd != [] {
      assert s.sys.toEqd[0] in s.sys.toEqd;
      C.AnswersHead(s.sys.toEqd, t);
    } else if a.TmcSays? && s.tmcUp && s.fromTmc != [] {
      assert s.fromTmc[0] in s.fromTmc;
      C.AnswersHead(s.fromTmc, t);
    }
  }

  // ----- the law of one tag

  /** Everything accepted under the tag is accounted for: requests and responses on their way, requests whose line
      could not be read, responses that came too late or could not be passed on, against live and expired entries. */
  predicate Law(s: Plant, y: Tally, t: Tag) {
    && Flight(s, t) + y.unread + y.stray + y.failed == Held(s.d.slots, t) + y.expired
    && y.stray <= y.expired
  }

  lemma FedFlight(q: Ports, s: Plant, e: Input, t: Tag)
    requires PortsOk(q) && LinksOk(q, s.d) && Feedable(q, e)
    ensures Flight(Fed(q, s, e), t) ==
              Flight(s, t) + AsNat(TakesTag(s.d, e, t) && Parse(Render(InsertMessage(s.d, e))).Some?)
  {
    var sent := Step(s.d, e).sent;
    AsksWritten(q, s.d, e, t);
    AskLinesAppend(s.toPmc, LinesTo(sent, q.pmc), t);
    AskLinesAppend(s.toTmc, LinesTo(sent, q.tmc), t);
  }

  /** Only a response of a controller frees an entry. */
  lemma FreedByAnswer(q: Ports, st: State, e: Input, t: Tag)
    requires PortsOk(q) && LinksOk(q, st) && Feedable(q, e)
    ensures FreesTag(st, e, t) ==> AnswerFrom(e, Ctl(q), t)
    ensures AnswerFrom(e, Ctl(q), t) ==> !TakesTag(st, e, t) && !e.SweepIn?
  {
    if FreesTag(st, e, t) {
      ReleaseSends(st, e);
    }
    if TakesTag(st, e, t) {
      InsertSends(st, e);
    }
  }

  /** The arithmetic of one step. */
  lemma LawFed(q: Ports, s: Plant, before: nat, y: Tally, e: Input, t: Tag)
    requires PortsOk(q) && LinksOk(q, s.d) && Feedable(q, e)
    requires Flight(s, t) + AsNat(AnswerFrom(e, Ctl(q), t)) == before
    requires before + y.unread + y.stray + y.failed == Held(s.d.slots, t) + y.expired && y.stray <= y.expired
    ensures Law(Fed(q, s, e), Plus(y, Counted(s.d, e, Ctl(q), t)), t)
  {
    FedFlight(q, s, e, t);
    HeldStep(s.d, e, t);
    FreedByAnswer(q, s.d, e, t);
    HeldNone(s.d.slots, t);
    LawSum(y, Counted(s.d, e, Ctl(q), t), before, Flight(s, t), Flight(Fed(q, s, e), t),
           Held(s.d.slots, t), Held(Step(s.d, e).st.slots, t), AsNat(AnswerFrom(e, Ctl(q), t)));
  }

  lemma LawSum(y: Tally, c: Tally, before: nat, taken: nat, after: nat, h: nat, h': nat, a: nat)
    requires before + y.unread + y.stray + y.failed == h + y.expired && y.stray <= y.expired
    requires taken + a == before && after + c.unread == taken + c.asked && a == c.answered + c.stray + c.failed
    requires h' + c.answered + c.expired == h + c.asked
    requires c.stray > 0 ==> h == 0 && c.asked == 0
    ensures var z := Plus(y, c); after + z.unread + z.stray + z.failed == h' + z.expired && z.stray <= z.expired
  {
  }

  // ----- a failed relay cuts the link

  /** While both links are up, every response for a live entry was passed on. */
  lemma AnswerIsPassedOn(q: Ports, s: Plant, a: Act, t: Tag)
    requires Inv(q, s) && FedBy(q, s, a).Some?
    ensures var e := FedBy(q, s, a).value;
            var s' := Next(q, s, a);
            s'.pmcUp && s'.tmcUp ==> Counted(s.d, e, Ctl(q), t).failed == 0
  {
    var e := FedBy(q, s, a).value;
    if AnswerFrom(e, Ctl(q), t) && !FreesTag(s.d, e, t) && FirstMatch(s.d.slots, t.seqNo, t.dev) < |s.d.slots| {
      HeadIsFromLink(q, s, a, t);
      KeptAnswer(s.d, e, Parse(e.line).value, t);
    }
  }

  lemma HeadIsFromLink(q: Ports, s: Plant, a: Act, t: Tag)
    requires Inv(q, s) && FedBy(q, s, a).Some? && AnswerFrom(FedBy(q, s, a).value, Ctl(q), t)
    ensures IsController(s.d, FedBy(q, s, a).value.fd)
    ensures a.PmcSays? || a.TmcSays?
  {
    match a
    case PmcSays(now, wr) => PmcHead(q, s, now, wr, t);
    case TmcSays(now, wr) => TmcHead(q, s, now, wr, t);
    case _ =>
  }

  lemma PmcHead(q: Ports, s: Plant, now: int, wr: bool, t: Tag)
    requires Inv(q, s) && FedBy(q, s, PmcSays(now, wr)).Some?
    ensures AnswerFrom(FedBy(q, s, PmcSays(now, wr)).value, Ctl(q), t) ==> s.d.pmcFd == q.pmc
  {
    assert s.sys.toEqd[0] in s.sys.toEqd;
    HeadSays(q, q.pmc, s.sys.toEqd, P.OUTBUF, now, wr, t);
    NoAnswerYet(t);
  }

  lemma TmcHead(q: Ports, s: Plant, now: int, wr: bool, t: Tag)
    requires Inv(q, s) && FedBy(q, s, TmcSays(now, wr)).Some?
    ensures AnswerFrom(FedBy(q, s, TmcSays(now, wr)).value, Ctl(q), t) ==> s.d.tmcFd == q.tmc
  {
    assert s.fromTmc[0] in s.fromTmc;
    HeadSays(q, q.tmc, s.fromTmc, TMC_BUF, now, wr, t);
    NoAnswerYet(t);
  }

  lemma NoAnswerYet(t: Tag)
    ensures !IsAnswer(PMC_REGISTER, t) && !IsAnswer(TMC_REGISTER, t)
  {
  }

  lemma KeptAnswer(st: State, e: Input, m: Message, t: Tag)
    requires e.LineIn? && Parse(e.line) == Some(m) && IsAnswer(m, t) && IsController(st, e.fd)
    requires !FreesTag(st, e, t) && FirstMatch(st.slots, t.seqNo, t.dev) < |st.slots|
    ensures Step(st, e).ret < 0
  {
    var i := FirstMatch(st.slots, t.seqNo, t.dev);
    assert AnsweredSlot(st, e.fd, m) == i;
    assert MoveOf(st, e) == MessageMove(st, e.fd, m, e.now, e.wr);
    if st.slots[i].value.clientFd >= 0 {
      RelayReturns(st, e.fd, m, e.now, e.wr);
    }
  }

  // ----- every step keeps invariant and law

  lemma RegisterRead(m: Message, fd: int, cap: nat, now: int, wr: bool, l: Links.Link)
    requires WireTrip.Wirable(m) && FloatFree(m) && Links.IsAttachOf(m, l) && cap >= 248
    ensures Format(m, cap) == Some(Render(m)) && Registers(LineIn(fd, Render(m), now, wr), fd, l)
  {
    WireTrip.WirableReturns(m);
    FloatFreeSize(m);
  }

  lemma PmcRegisterRead(fd: int, now: int, wr: bool)
    ensures Format(PMC_REGISTER, P.OUTBUF) == Some(Render(PMC_REGISTER)) && FromPmcOk(PMC_REGISTER)
    ensures Registers(LineIn(fd, Render(PMC_REGISTER), now, wr), fd, Links.PmcLink)
  {
    PlainReply(PMC_REGISTER);
    RegisterRead(PMC_REGISTER, fd, P.OUTBUF, now, wr, Links.PmcLink);
  }

  lemma TmcRegisterRead(fd: int, now: int, wr: bool)
    ensures Format(TMC_REGISTER, TMC_BUF) == Some(Render(TMC_REGISTER)) && FromTmcOk(TMC_REGISTER)
    ensures Registers(LineIn(fd, Render(TMC_REGISTER), now, wr), fd, Links.TmcLink)
  {
    PlainReply(TMC_REGISTER);
    RegisterRead(TMC_REGISTER, fd, TMC_BUF, now, wr, Links.TmcLink);
  }

  lemma EnrolledPmc(q: Ports, s: Plant, a: Act)
    requires Inv(q, s) && FedBy(q, s, a).Some? && Feedable(q, FedBy(q, s, a).value)
    ensures var s' := Next(q, s, a);
            s'.pmcUp ==> s'.d.pmcFd == q.pmc || (s'.sys.toEqd != [] && s'.sys.toEqd[0] == PMC_REGISTER)
  {
    var e := FedBy(q, s, a).value;
    LinkMoves(q, s.d, e, Links.PmcLink);
    if a.PmcSays? && s.d.pmcFd != q.pmc {
      PmcRegisterRead(q.pmc, a.now, a.wr);
    }
  }

  lemma EnrolledTmc(q: Ports, s: Plant, a: Act)
    requires Inv(q, s) && FedBy(q, s, a).Some? && Feedable(q, FedBy(q, s, a).value)
    ensures var s' := Next(q, s, a);
            s'.tmcUp ==> s'.d.tmcFd == q.tmc || (s'.fromTmc != [] && s'.fromTmc[0] == TMC_REGISTER)
  {
    var e := FedBy(q, s, a).value;
    LinkMoves(q, s.d, e, Links.TmcLink);
    if a.TmcSays? && s.d.tmcFd != q.tmc {
      TmcRegisterRead(q.tmc, a.now, a.wr);
    }
  }

  lemma FedFine(q: Ports, s: Plant, e: Input)
    requires PortsOk(q) && LinksOk(q, s.d) && ChannelsFine(s) && Feedable(q, e)
    ensures LinksOk(q, Fed(q, s, e).d) && ChannelsFine(Fed(q, s, e))
  {
    LinksKept(q, s.d, e);
    LinesWrittenOk(q, s.d, e);
  }

  lemma FedStep(q: Ports, s: Plant, a: Act, y: Tally, t: Tag)
    requires Inv(q, s) && Law(s, y, t) && FedBy(q, s, a).Some?
    ensures var e := FedBy(q, s, a).value;
            var s' := Next(q, s, a);
            Inv(q, s') && s'.d == Step(s.d, e).st && Law(s', Plus(y, Counted(s.d, e, Ctl(q), t)), t)
  {
    var e := FedBy(q, s, a).value;
    FedOne(q, s, a, t);
    TakenFine(s, a);
    FedFine(q, Taken(s, a), e);
    EnrolledPmc(q, s, a);
    EnrolledTmc(q, s, a);
    LawFed(q, Taken(s, a), Flight(s, t), y, e, t);
  }

  /** A step elsewhere: equipmentd and its links are as before, the channels stay fine, nothing with the tag
      is lost or made, and what was next to be read still is. */
  predicate Onward(s: Plant, s': Plant, t: Tag) {
    && ChannelsFine(s') && Flight(s', t) == Flight(s, t)
    && s'.d == s.d && s'.pmcUp == s.pmcUp && s'.tmcUp == s.tmcUp
    && (s.sys.toEqd != [] ==> s'.sys.toEqd != [] && s'.sys.toEqd[0] == s.sys.toEqd[0])
    && (s.fromTmc != [] ==> s'.fromTmc != [] && s'.fromTmc[0] == s.fromTmc[0])
  }

  /** The PMC's side after it read a line. */
  lemma PmcMoves(s: Plant, sys: C.System, t: Tag)
    requires ChannelsFine(s) && s.toPmc != [] && SysOk(sys)
    requires C.Flight(sys, t) == C.Flight(s.sys, t) + AsNat(AskLine(s.toPmc[0], t))
    requires s.sys.toEqd != [] ==> sys.toEqd != [] && sys.toEqd[0] == s.sys.toEqd[0]
    ensures Onward(s, s.(toPmc := s.toPmc[1..], sys := sys), t)
  {
    TailIn(s.toPmc);
  }

  lemma AskedHead(s: C.System, m: Message, note: Option<string>, aux: Option<AuxLink.AuxError>)
    ensures s.toEqd != [] ==> C.Asked(s, m, note, aux).toEqd != [] && C.Asked(s, m, note, aux).toEqd[0] == s.toEqd[0]
  {
  }

  lemma HeardByPmc(s: Plant, note: Option<string>, aux: Option<AuxLink.AuxError>, t: Tag)
    requires ChannelsFine(s) && s.toPmc != [] && NoteOk(note)
    ensures Onward(s, PmcHeard(s, note, aux), t)
  {
    var line := s.toPmc[0];
    assert line in s.toPmc;
    if Parse(line).Some? {
      var m := Parse(line).value;
      ParseRange(line);
      AskedOk(s.sys, m, note, aux);
      C.FlightAsked(s.sys, m, note, aux, t);
      AskedHead(s.sys, m, note, aux);
      PmcMoves(s, C.Asked(s.sys, m, note, aux), t);
    } else {
      PmcMoves(s, s.sys, t);
    }
  }

  /** The TMC's channels after it read a line and sent `out`. */
  lemma TmcMoves(s: Plant, out: seq<Message>, tmc: T.Tmc, t: Tag)
    requires ChannelsFine(s) && s.toTmc != [] && forall m | m in out :: FromTmcOk(m)
    requires C.Answers(out, t) == AsNat(AskLine(s.toTmc[0], t))
    ensures Onward(s, s.(toTmc := s.toTmc[1..], tmc := tmc, fromTmc := s.fromTmc + out), t)
  {
    TailIn(s.toTmc);
    C.AnswersAppend(s.fromTmc, out, t);
  }

  lemma HeardByTmc(s: Plant, now: int, sentAt: int, t: Tag)
    requires ChannelsFine(s) && s.toTmc != []
    ensures Onward(s, TmcHeard(s, now, sentAt), t)
  {
    var line := s.toTmc[0];
    var r := Parse(line);
    assert line in s.toTmc;
    if r.None? || !ForTmc(r.value) {
      TmcMoves(s, [], s.tmc, t);
      assert s.fromTmc + [] == s.fromTmc;
    } else {
      var o := T.Handled(s.tmc, r.value, now, sentAt, true, true);
      ParseRange(line);
      TmcHandledFine(s.tmc, r.value, now, sentAt);
      TmcAnswersOnce(s.tmc, r.value, now, sentAt, t);
      TmcMoves(s, o.sent, o.t, t);
    }
  }

  lemma TmcAdds(s: Plant, out: seq<Message>, tmc: T.Tmc, t: Tag)
    requires ChannelsFine(s) && forall m | m in out :: FromTmcOk(m)
    requires C.Answers(out, t) == 0
    ensures Onward(s, s.(tmc := tmc, fromTmc := s.fromTmc + out), t)
  {
    C.AnswersAppend(s.fromTmc, out, t);
  }

  lemma TmcTickMoves(s: Plant, now: int, at1: int, at2: int, t: Tag)
    requires ChannelsFine(s)
    ensures Onward(s, TmcTicked(s, now, at1, at2), t)
  {
    var o := T.Ticked(s.tmc, now, at1, at2, true, true);
    TmcTickedFine(s.tmc, now, at1, at2);
    EventsAnswerNothing(o.sent, t);
    TmcAdds(s, o.sent, o.t, t);
  }

  lemma SysMoves(s: Plant, sys: C.System, t: Tag)
    requires ChannelsFine(s) && SysOk(sys) && C.Flight(sys, t) == C.Flight(s.sys, t)
    requires s.sys.toEqd != [] ==> sys.toEqd != [] && sys.toEqd[0] == s.sys.toEqd[0]
    ensures Onward(s, s.(sys := sys), t)
  {
  }

  lemma InsideStep(s: Plant, x: C.Action, t: Tag)
    requires ChannelsFine(s) && !x.EqdAsks?
    ensures Onward(s, InsideMoved(s, x), t)
  {
    InsideAll(s.sys, x, t);
    SysMoves(s, C.Step(s.sys, x), t);
  }

  lemma InsideAll(s: C.System, x: C.Action, t: Tag)
    requires SysOk(s) && !x.EqdAsks?
    ensures SysOk(C.Step(s, x)) && C.Flight(C.Step(s, x), t) == C.Flight(s, t)
    ensures s.toEqd != [] ==> C.Step(s, x).toEqd != [] && C.Step(s, x).toEqd[0] == s.toEqd[0]
  {
    InsideOk(s, x);
    C.FlightStep(s, x, t);
    InsideHead(s, x);
  }

  lemma InsideHead(s: C.System, x: C.Action)
    requires !x.EqdAsks?
    ensures s.toEqd != [] ==> C.Step(s, x).toEqd != [] && C.Step(s, x).toEqd[0] == s.toEqd[0]
  {
  }

  lemma Unmoved(s: Plant, t: Tag)
    requires ChannelsFine(s)
    ensures Onward(s, s, t)
  {
  }

  lemma ElsewhereStep(s: Plant, a: Act, t: Tag)
    requires ChannelsFine(s)
    ensures Onward(s, Elsewhere(s, a), t)
  {
    if a.PmcHears? && s.toPmc != [] && NoteOk(a.note) {
      HeardByPmc(s, a.note, a.aux, t);
    } else if a.Inside? && !a.a.EqdAsks? {
      InsideStep(s, a.a, t);
    } else if a.TmcHears? && s.toTmc != [] {
      HeardByTmc(s, a.now, a.sentAt, t);
    } else if a.TmcTicks? {
      TmcTickMoves(s, a.now, a.at1, a.at2, t);
    } else {
      Unmoved(s, t);
    }
  }

  /** A message that cannot be printed is not a REGISTER. */
  lemma DroppedKeeps(q: Ports, s: Plant, a: Act)
    requires Inv(q, s) && FedBy(q, s, a).None?
    ensures Inv(q, Taken(s, a))
  {
    TakenFine(s, a);
    if a.PmcSays? && s.pmcUp && s.sys.toEqd != [] {
      PmcRegisterRead(q.pmc, 0, true);
      assert HeadLine(s.sys.toEqd, P.OUTBUF) == None;
    } else if a.TmcSays? && s.tmcUp && s.fromTmc != [] {
      TmcRegisterRead(q.tmc, 0, true);
      assert HeadLine(s.fromTmc, TMC_BUF) == None;
    }
  }

  lemma OtherStep(q: Ports, s: Plant, a: Act, y: Tally, t: Tag)
    requires Inv(q, s) && Law(s, y, t) && FedBy(q, s, a).None?
    ensures var s' := Next(q, s, a);
            Inv(q, s') && s'.d == s.d && Law(s', y, t) && s'.pmcUp == s.pmcUp && s'.tmcUp == s.tmcUp
  {
    DroppedKeeps(q, s, a);
    DroppedHead(s, a, q, t);
    ElsewhereStep(Taken(s, a), a, t);
  }

  // ----- every run

  lemma InitHolds(q: Ports, devs: seq<u32>, bootedAt: int, t: Tag)
    requires PortsOk(q)
    ensures Inv(q, Init(devs, bootedAt)) && Law(Init(devs, bootedAt), NOTHING, t) && Held(INIT.slots, t) == 0
  {
    InitFine(devs, bootedAt);
    InitEmpty(devs, bootedAt, t);
  }

  lemma InitFine(devs: seq<u32>, bootedAt: int)
    ensures ChannelsFine(Init(devs, bootedAt))
  {
    FirstSys(devs);
    FirstTmc();
  }

  lemma FirstTmc()
    ensures forall m | m in [TMC_REGISTER, T.StatusEvt(T.Idle)] :: FromTmcOk(m)
  {
    TmcRegisterRead(0, 0, true);
    TmcReplyFine(PMC_REGISTER, T.Idle);
  }

  lemma FirstSys(devs: seq<u32>)
    ensures SysOk(C.System(C.Init(devs).lines, [PMC_REGISTER]))
  {
    var s := C.System(C.Init(devs).lines, [PMC_REGISTER]);
    C.InitHolds(devs);
    PmcRegisterRead(0, 0, true);
    forall i | 0 <= i < |devs|
      ensures LineOk(s.lines[i])
    {
      OpenedFine(devs[i]);
    }
  }

  lemma InitEmpty(devs: seq<u32>, bootedAt: int, t: Tag)
    ensures Flight(Init(devs, bootedAt), t) == 0 && Held(INIT.slots, t) == 0
  {
    var s := Init(devs, bootedAt);
    C.NothingFlies(s.sys.lines, t);
    C.AnswersOne(PMC_REGISTER, t);
    StartupAnswersNothing(t);
    NothingHeld(EmptyTable(), t);
  }

  lemma NothingHeld(s: seq<Slot>, t: Tag)
    requires forall i | 0 <= i < |s| :: s[i].None?
    ensures Held(s, t) == 0
  {
    HeldNone(s, t);
  }

  lemma OpenedFine(d: u32)
    ensures LineOk(C.Opened(d))
  {
    PlainReply(Sim.RegisterEvt(d));
    StateTextPlain(Fsm.Idle);
    PlainReply(Sim.StatusEvt(d, Fsm.Idle));
  }

  lemma StartupAnswersNothing(t: Tag)
    ensures C.Answers([TMC_REGISTER, T.StatusEvt(T.Idle)], t) == 0
  {
    var a, b := TMC_REGISTER, T.StatusEvt(T.Idle);
    assert [a, b] == [a] + [b];
    C.AnswersAppend([a], [b], t);
    C.AnswersOne(a, t);
    C.AnswersOne(b, t);
  }

  /** The state of a run: equipmentd's part is its own run over the inputs, and invariant and law hold. */
  predicate Sound1(q: Ports, s: Plant, es: seq<Input>, t: Tag) {
    && s.d == StateAfter(INIT, es) && Inv(q, s)
    && Law(s, TallyOf(INIT, es, Ctl(q), t), t)
    && (s.pmcUp && s.tmcUp ==> TallyOf(INIT, es, Ctl(q), t).failed == 0)
  }

  lemma SoundFed(q: Ports, s: Plant, es: seq<Input>, a: Act, t: Tag)
    requires Sound1(q, s, es, t) && FedBy(q, s, a).Some?
    ensures Sound1(q, Next(q, s, a), es + [FedBy(q, s, a).value], t)
  {
    var e := FedBy(q, s, a).value;
    FedStep(q, s, a, TallyOf(INIT, es, Ctl(q), t), t);
    AnswerIsPassedOn(q, s, a, t);
    UpBefore(q, s, a);
    TallySnoc(INIT, es, e, Ctl(q), t);
    StateAfterConcat(INIT, es, [e]);
    StateAfterOne(s.d, e);
  }

  lemma UpBefore(q: Ports, s: Plant, a: Act)
    requires FedBy(q, s, a).Some?
    ensures Next(q, s, a).pmcUp ==> s.pmcUp
    ensures Next(q, s, a).tmcUp ==> s.tmcUp
  {
  }

  lemma SoundStep(q: Ports, s: Plant, es: seq<Input>, a: Act, t: Tag)
    requires Sound1(q, s, es, t)
    ensures var es' := match FedBy(q, s, a) case None => es case Some(e) => es + [e];
            Sound1(q, Next(q, s, a), es', t)
  {
    if FedBy(q, s, a).Some? {
      SoundFed(q, s, es, a, t);
    } else {
      OtherStep(q, s, a, TallyOf(INIT, es, Ctl(q), t), t);
    }
  }

  lemma {:induction false} PlantRun(q: Ports, devs: seq<u32>, bootedAt: int, acts: seq<Act>, t: Tag)
    requires PortsOk(q)
    ensures Sound1(q, Run(q, devs, bootedAt, acts), Inputs(q, devs, bootedAt, acts), t)
  {
    if acts == [] {
      InitHolds(q, devs, bootedAt, t);
    } else {
      var as0 := acts[..|acts| - 1];
      PlantRun(q, devs, bootedAt, as0, t);
      SoundStep(q, Run(q, devs, bootedAt, as0), Inputs(q, devs, bootedAt, as0), acts[|acts| - 1], t);
    }
  }

  // ----- behind a cut link

  lemma UnwrittenSilent(st: State, e: Input)
    requires (e.LineIn? ==> !e.wr) && (e.SchedulerIn? ==> !e.wr)
    ensures Step(st, e).sent == []
  {
  }

  /** Nothing is written to a controller whose connection was closed. */
  lemma NothingArrives(q: Ports, s: Plant, e: Input, fd: int)
    requires !Connected(q, s, fd)
    ensures LinesTo(Step(s.d, Attempted(q, s, e)).sent, fd) == []
  {
    var e' := Attempted(q, s, e);
    if (e'.LineIn? || e'.SchedulerIn?) && e'.wr {
      assert Arrives(q, s, Step(s.d, e').sent);
    } else {
      UnwrittenSilent(s.d, e');
    }
  }

  /** What is behind a link that is down in s is behind it in s', no more and no less. */
  predicate StaysStranded(s: Plant, s': Plant, t: Tag) {
    && (!s.pmcUp ==> !s'.pmcUp && PmcSide(s', t) == PmcSide(s, t))
    && (!s.tmcUp ==> !s'.tmcUp && TmcSide(s', t) == TmcSide(s, t))
  }

  lemma OtherSide(s: Plant, a: Act)
    ensures var s' := Elsewhere(s, a);
            if a.PmcHears? || a.Inside? then s'.toTmc == s.toTmc && s'.fromTmc == s.fromTmc
            else s'.toPmc == s.toPmc && s'.sys == s.sys
  {
  }

  lemma SidesElsewhere(s: Plant, a: Act, t: Tag)
    requires ChannelsFine(s)
    ensures PmcSide(Elsewhere(s, a), t) == PmcSide(s, t) && TmcSide(Elsewhere(s, a), t) == TmcSide(s, t)
  {
    ElsewhereStep(s, a, t);
    OtherSide(s, a);
    SidesFrom(s, Elsewhere(s, a), t);
  }

  lemma SidesFrom(s: Plant, s': Plant, t: Tag)
    requires Flight(s', t) == Flight(s, t)
    requires (s'.toTmc == s.toTmc && s'.fromTmc == s.fromTmc) || (s'.toPmc == s.toPmc && s'.sys == s.sys)
    ensures PmcSide(s', t) == PmcSide(s, t) && TmcSide(s', t) == TmcSide(s, t)
  {
  }

  lemma SideStays(q: Ports, s: Plant, a: Act, t: Tag)
    requires Inv(q, s)
    ensures StaysStranded(s, Next(q, s, a), t)
  {
    DownUntouched(s, a);
    if Offered(q, s, a).Some? {
      FedSide(q, Taken(s, a), Offered(q, s, a).value, t);
      AttemptedTaken(q, s, a, Offered(q, s, a).value);
    } else {
      TakenFine(s, a);
      SidesElsewhere(Taken(s, a), a, t);
      ElsewhereLinks(Taken(s, a), a);
    }
  }

  /** Reading a message changes neither equipmentd nor its links. */
  lemma AttemptedTaken(q: Ports, s: Plant, a: Act, e: Input)
    ensures Attempted(q, Taken(s, a), e) == Attempted(q, s, e)
  {
  }

  lemma FedSide(q: Ports, s: Plant, e: Input, t: Tag)
    ensures StaysStranded(s, Fed(q, s, Attempted(q, s, e)), t)
  {
    var s' := Fed(q, s, Attempted(q, s, e));
    if !s.pmcUp {
      NothingArrives(q, s, e, q.pmc);
    }
    if !s.tmcUp {
      NothingArrives(q, s, e, q.tmc);
    }
    FedChannels(q, s, Attempted(q, s, e));
    SidesSame(s, s', t);
  }

  lemma FedChannels(q: Ports, s: Plant, e: Input)
    ensures var s' := Fed(q, s, e);
            && (LinesTo(Step(s.d, e).sent, q.pmc) == [] ==> s'.toPmc == s.toPmc)
            && (LinesTo(Step(s.d, e).sent, q.tmc) == [] ==> s'.toTmc == s.toTmc)
            && s'.sys == s.sys && s'.fromTmc == s.fromTmc && (s'.pmcUp ==> s.pmcUp) && (s'.tmcUp ==> s.tmcUp)
  {
  }

  lemma SidesSame(s: Plant, s': Plant, t: Tag)
    requires s'.sys == s.sys && s'.fromTmc == s.fromTmc && (s'.pmcUp ==> s.pmcUp) && (s'.tmcUp ==> s.tmcUp)
    requires (!s.pmcUp ==> s'.toPmc == s.toPmc) && (!s.tmcUp ==> s'.toTmc == s.toTmc)
    ensures StaysStranded(s, s', t)
  {
  }

  lemma DownUntouched(s: Plant, a: Act)
    ensures var s' := Taken(s, a);
            && (!s.pmcUp ==> s'.sys == s.sys) && (!s.tmcUp ==> s'.fromTmc == s.fromTmc)
            && s'.toPmc == s.toPmc && s'.toTmc == s.toTmc && s'.pmcUp == s.pmcUp && s'.tmcUp == s.tmcUp
  {
  }

  lemma ElsewhereLinks(s: Plant, a: Act)
    ensures Elsewhere(s, a).pmcUp == s.pmcUp && Elsewhere(s, a).tmcUp == s.tmcUp
  {
  }

  lemma RunSnoc(q: Ports, devs: seq<u32>, bootedAt: int, acts: seq<Act>, a: Act)
    ensures Run(q, devs, bootedAt, acts + [a]) == Next(q, Run(q, devs, bootedAt, acts), a)
  {
    assert (acts + [a])[..|acts|] == acts;
  }

  lemma RunSideStays(q: Ports, devs: seq<u32>, bootedAt: int, acts: seq<Act>, a: Act, t: Tag)
    requires PortsOk(q)
    ensures StaysStranded(Run(q, devs, bootedAt, acts), Run(q, devs, bootedAt, acts + [a]), t)
  {
    PlantRun(q, devs, bootedAt, acts, t);
    RunSnoc(q, devs, bootedAt, acts, a);
    SideStays(q, Run(q, devs, bootedAt, acts), a, t);
  }

  lemma StrandedChain(s: Plant, s1: Plant, s2: Plant, t: Tag)
    requires StaysStranded(s, s1, t) && StaysStranded(s1, s2, t)
    ensures StaysStranded(s, s2, t)
  {
  }

  /** What a cut link has stranded stays so, for the rest of every run: none of it is ever answered, and nothing is
      added to it. */
  lemma {:induction false} StrandedForGood(q: Ports, devs: seq<u32>, bootedAt: int, acts: seq<Act>, more: seq<Act>, t: Tag)
    requires PortsOk(q)
    ensures StaysStranded(Run(q, devs, bootedAt, acts), Run(q, devs, bootedAt, acts + more), t)
    decreases |more|
  {
    if more == [] {
      assert acts + more == acts;
    } else {
      var fs, a := more[..|more| - 1], more[|more| - 1];
      assert acts + more == (acts + fs) + [a];
      StrandedForGood(q, devs, bootedAt, acts, fs, t);
      RunSideStays(q, devs, bootedAt, acts + fs, a, t);
      StrandedChain(Run(q, devs, bootedAt, acts), Run(q, devs, bootedAt, acts + fs), Run(q, devs, bootedAt, acts + more), t);
    }
  }

  /** In every run of the plant and for every tag: each accepted request with the tag has been answered, or is on its
      way as a request or as a response, or was lost for one of four reasons: it or its response is behind a link that
      was cut, its reprinted line was too long to be read, its response came after the timeout, or its response could
      not be passed on. The first and the last need a cut link, the third a timeout. No response is passed on that was
      not asked for, and none twice. */
  lemma EveryRequestAccounted(q: Ports, devs: seq<u32>, bootedAt: int, acts: seq<Act>, t: Tag)
    requires PortsOk(q)
    ensures var s := Run(q, devs, bootedAt, acts);
            var y := TallyOf(INIT, Inputs(q, devs, bootedAt, acts), Ctl(q), t);
            && y.asked == y.answered + OnItsWay(s, t) + Stranded(s, t) + y.unread + y.stray + y.failed
            && y.stray <= y.expired && (s.pmcUp && s.tmcUp ==> y.failed == 0 && Stranded(s, t) == 0)
  {
    PlantRun(q, devs, bootedAt, acts, t);
    InitHolds(q, devs, bootedAt, t);
    HeldRun(INIT, Inputs(q, devs, bootedAt, acts), Ctl(q), t);
  }

  /** Between the PMC and its simulators no length limit is in the way: in every run of the plant each request and each
      response in a channel there is printed, and read on the other side, as it is. */
  lemma InnerHopsLoseNothing(q: Ports, devs: seq<u32>, bootedAt: int, acts: seq<Act>, i: nat, m: Message)
    requires PortsOk(q) && i < |Run(q, devs, bootedAt, acts).sys.lines|
    requires var l := Run(q, devs, bootedAt, acts).sys.lines[i]; m in l.down || (m in l.up && m.role == Resp)
    ensures SurvivesHop(m)
  {
    PlantRun(q, devs, bootedAt, acts, Tag(0, 0));
    var l := Run(q, devs, bootedAt, acts).sys.lines[i];
    assert LineOk(l);
    if m !in l.down {
      WireTrip.WirableReturns(m);
    }
  }

  /** Nothing with the tag was lost but by timeouts: its requests could be read, and both links are up. */
  predicate NothingLost(q: Ports, s: Plant, es: seq<Input>, t: Tag) {
    s.pmcUp && s.tmcUp && TallyOf(INIT, es, Ctl(q), t).unread == 0
  }

  /** End to end, from client to client, in every run in which only client c uses the tag: no other client is ever handed
      a response with the tag; c is handed at most one per request; and what c is not handed is on its way or was lost
      for one of the four reasons, so that, while nothing was lost, all but the timed-out requests are answered or on
      their way. */
  lemma OwnRequestsAnswered(q: Ports, devs: seq<u32>, bootedAt: int, acts: seq<Act>, c: int, d: int, t: Tag)
    requires PortsOk(q) && c >= 0
    requires Owned(INIT, Inputs(q, devs, bootedAt, acts), c, t)
    ensures var s := Run(q, devs, bootedAt, acts);
            var es := Inputs(q, devs, bootedAt, acts);
            var y := TallyOf(INIT, es, Ctl(q), t);
            var handed := AnswerCount(INIT, es, c, t.seqNo, t.dev);
            && (d != c ==> AnswerCount(INIT, es, d, t.seqNo, t.dev) == 0)
            && y.asked == handed + OnItsWay(s, t) + Stranded(s, t) + y.unread + y.stray + y.failed && y.stray <= y.expired
            && (NothingLost(q, s, es, t) ==> y.asked <= handed + OnItsWay(s, t) + y.expired)
            && (NothingLost(q, s, es, t) && y.expired == 0 ==> y.asked == handed + OnItsWay(s, t))
  {
    var es := Inputs(q, devs, bootedAt, acts);
    EveryRequestAccounted(q, devs, bootedAt, acts, t);
    InitHolds(q, devs, bootedAt, t);
    HeldNone(INIT.slots, t);
    OwnerIsAnswered(INIT, es, c, c, Ctl(q), t);
    OwnerIsAnswered(INIT, es, c, d, Ctl(q), t);
  }

  /** A run that is over before the tag's requests can time out: once nothing with the tag is on its way and nothing was
      lost, c has been handed exactly one response per request. */
  lemma AnsweredInTime(q: Ports, devs: seq<u32>, bootedAt: int, acts: seq<Act>, c: int, t: Tag, since: int)
    requires PortsOk(q) && c >= 0
    requires Owned(INIT, Inputs(q, devs, bootedAt, acts), c, t) && Timely(INIT, Inputs(q, devs, bootedAt, acts), since, t)
    requires NothingLost(q, Run(q, devs, bootedAt, acts), Inputs(q, devs, bootedAt, acts), t)
    requires OnItsWay(Run(q, devs, bootedAt, acts), t) == 0
    ensures var es := Inputs(q, devs, bootedAt, acts);
            AnswerCount(INIT, es, c, t.seqNo, t.dev) == TallyOf(INIT, es, Ctl(q), t).asked
  {
    InitHolds(q, devs, bootedAt, t);
    HeldNone(INIT.slots, t);
    OwnRequestsAnswered(q, devs, bootedAt, acts, c, c, t);
    NoneExpires(INIT, Inputs(q, devs, bootedAt, acts), since, Ctl(q), t);
  }
}
