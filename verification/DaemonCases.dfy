/** Runs of equipmentd, from its start, in which an expected property fails. */
module DaemonCases {
  import opened Wrappers
  import opened Ints
  import opened Messages
  import opened Codec
  import opened Tracker
  import opened Daemon
  import opened DaemonRuns
  import opened Links
  import opened Registry
  import opened Scheduler
  import Router
  import WireTrip
  import CodecCases
  import Correlation

  // The PMC is connection 5; clients are 6, 7 and 8.

  const ATTACH := Blank(Req, Register).(seqNo := Some(1))

  function Ask(t: MsgType, seqNo: u32): Message {
    Blank(Req, t).(dev := Some(1), seqNo := Some(seqNo))
  }

  /** The input is a line from fd that says m, and whatever is written for it arrives. */
  predicate Says(e: Input, fd: int, m: Message, at: int) {
    e.LineIn? && e.fd == fd && e.now == at && e.wr && Parse(e.line) == Some(m)
  }

  function Entry(fd: int, t: MsgType, seqNo: u32, at: int): Slot {
    Some(Pending(fd, seqNo, 1, t, false, at))
  }

  /** The daemon as a value. The lemmas about single lines and runs take such a value f with IsDaemon(f), so that a
      proof about a concrete run does not unfold Step; TheDaemon is the one there is. */
  type Machine = (State, Input) -> Outcome

  ghost predicate IsDaemon(f: Machine) {
    forall st: State, e: Input {:trigger Step(st, e)} :: f(st, e) == Step(st, e)
  }

  function RunOf(f: Machine, st: State, es: seq<Input>): State {
    if es == [] then st else f(RunOf(f, st, es[..|es| - 1]), es[|es| - 1]).st
  }

  /** Two names for one state, so that the step below is equality alone. */
  lemma SameStep(f: Machine, s: State, t: State, e: Input)
    requires IsDaemon(f) && s == t
    ensures f(s, e).st == Step(t, e).st
  {
    assert f(s, e) == Step(s, e);
  }

  lemma {:induction false} RunOfDaemon(f: Machine, st: State, es: seq<Input>)
    requires IsDaemon(f)
    ensures RunOf(f, st, es) == StateAfter(st, es)
  {
    if es != [] {
      var fs, e := es[..|es| - 1], es[|es| - 1];
      assert fs + [e] == es;
      RunOfDaemon(f, st, fs);
      AfterSnoc(st, fs, e);
      SameStep(f, RunOf(f, st, fs), StateAfter(st, fs), e);
    }
  }

  lemma RunOfSnoc(f: Machine, st: State, es: seq<Input>, e: Input)
    ensures RunOf(f, st, es + [e]) == f(RunOf(f, st, es), e).st
  {
    assert (es + [e])[..|es|] == es;
  }

  lemma PlainAsk(t: MsgType, seqNo: u32)
    requires t != UnknownType
    ensures WireTrip.Wirable(Ask(t, seqNo)) && WireTrip.Wirable(OkReply(Ask(t, seqNo)))
  {
    Correlation.PlainIsWirable(Ask(t, seqNo));
    Correlation.PlainIsWirable(OkReply(Ask(t, seqNo)));
  }

  lemma Registers(f: Machine, at: int) returns (e: Input)
    requires IsDaemon(f)
    ensures Says(e, 5, ATTACH, at) && f(INIT, e).st == INIT.(pmcFd := 5)
  {
    Correlation.PlainIsWirable(ATTACH);
    WireTrip.WirableReturns(ATTACH);
    e := RegisterLine(f, ATTACH, at);
  }

  lemma RegisterLine(f: Machine, reg: Message, at: int) returns (e: Input)
    requires IsDaemon(f) && IsAttach(reg) && reg.dev.None? && Parse(Render(reg)) == Some(reg)
    ensures Says(e, 5, reg, at) && f(INIT, e).st == INIT.(pmcFd := 5)
  {
    e := LineIn(5, Render(reg), at, true);
    Correlation.AttachOutcome(INIT, 5, reg, at);
    assert f(INIT, e) == Step(INIT, e);
  }

  /** A request of client fd takes slot k and goes to the PMC. */
  lemma RequestLine(f: Machine, st: State, fd: int, req: Message, at: int, k: nat) returns (e: Input)
    requires IsDaemon(f) && WireTrip.Wirable(req) && Router.Route(req, st.pmcFd, st.tmcFd) == Router.Forward
    requires k < |st.slots| && st.slots[k].None? && forall j | 0 <= j < k :: st.slots[j].Some?
    ensures Says(e, fd, req, at) && req.seqNo.Some? && req.dev.Some?
    ensures f(st, e).st == st.(slots := st.slots[k := Some(ClientPending(fd, req, at))])
  {
    e := LineIn(fd, Render(req), at, true);
    Correlation.RequestReachesController(st, fd, req, at);
    Correlation.WirableFits(req);
    assert f(st, e) == Step(st, e);
  }

  /** A response of the PMC goes to the client of the first slot with its key. */
  lemma ResponseLine(f: Machine, st: State, resp: Message, at: int, k: nat) returns (e: Input)
    requires IsDaemon(f) && WireTrip.Wirable(resp) && resp.role == Resp && st.pmcFd == 5
    requires k < |st.slots| && st.slots[k].Some? && st.slots[k].value.clientFd >= 0
    requires resp.seqNo == Some(st.slots[k].value.seqNo) && resp.dev == Some(st.slots[k].value.dev)
    requires FirstMatch(st.slots, st.slots[k].value.seqNo, st.slots[k].value.dev) == k
    ensures Says(e, 5, resp, at)
    ensures f(st, e).sent == [Packet(st.slots[k].value.clientFd, Render(resp))]
    ensures f(st, e).st.slots == st.slots[k := None] && f(st, e).st.pmcFd == 5
  {
    e := LineIn(5, Render(resp), at, true);
    Correlation.ResponseReachesClient(st, k, 5, resp, at);
    Correlation.WirableFits(resp);
    assert f(st, e) == Step(st, e);
    RelayReturns(st, 5, resp, at, true);
  }

  lemma Asks(f: Machine, st: State, fd: int, t: MsgType, seqNo: u32, at: int, k: nat) returns (e: Input)
    requires IsDaemon(f) && st.pmcFd == 5 && t in {Start, Stop}
    requires k < |st.slots| && st.slots[k].None? && forall j | 0 <= j < k :: st.slots[j].Some?
    ensures Says(e, fd, Ask(t, seqNo), at)
    ensures f(st, e).st == st.(slots := st.slots[k := Entry(fd, t, seqNo, at)])
  {
    PlainAsk(t, seqNo);
    e := RequestLine(f, st, fd, Ask(t, seqNo), at, k);
  }

  lemma Answers(f: Machine, st: State, t: MsgType, seqNo: u32, at: int, k: nat) returns (e: Input, line: string)
    requires IsDaemon(f) && st.pmcFd == 5 && t in {Start, Stop}
    requires k < |st.slots| && HasKey(st.slots[k], seqNo, 1) && st.slots[k].value.clientFd >= 0
    requires forall j | 0 <= j < k :: !HasKey(st.slots[j], seqNo, 1)
    ensures Says(e, 5, OkReply(Ask(t, seqNo)), at) && Parse(line) == Some(OkReply(Ask(t, seqNo)))
    ensures f(st, e).sent == [Packet(st.slots[k].value.clientFd, line)]
    ensures f(st, e).st.slots == st.slots[k := None] && f(st, e).st.pmcFd == 5
  {
    PlainAsk(t, seqNo);
    Correlation.WirableFits(OkReply(Ask(t, seqNo)));
    e := ResponseLine(f, st, OkReply(Ask(t, seqNo)), at, k);
    line := Render(OkReply(Ask(t, seqNo)));
  }

  // ----- the younger request is answered

  /** Client 6 asks, client 7 asks, 6 is answered, and client 8 asks under the key of 7 and gets the slot of 6. */
  predicate Overtaking(es: seq<Input>) {
    && |es| == 5
    && Says(es[0], 5, ATTACH, 0) && Says(es[1], 6, Ask(Start, 1), 1) && Says(es[2], 7, Ask(Stop, 2), 2)
    && Says(es[3], 5, OkReply(Ask(Start, 1)), 3) && Says(es[4], 8, Ask(Stop, 2), 4)
  }

  lemma TwoWait(f: Machine) returns (es: seq<Input>)
    requires IsDaemon(f)
    ensures |es| == 3 && Says(es[0], 5, ATTACH, 0) && Says(es[1], 6, Ask(Start, 1), 1) && Says(es[2], 7, Ask(Stop, 2), 2)
    ensures RunOf(f, INIT, es) ==
              INIT.(pmcFd := 5, slots := EmptyTable()[0 := Entry(6, Start, 1, 1)][1 := Entry(7, Stop, 2, 2)])
  {
    var a := Registers(f, 0);
    RunOfSnoc(f, INIT, [], a);
    var s1 := INIT.(pmcFd := 5);
    var b := Asks(f, s1, 6, Start, 1, 1, 0);
    RunOfSnoc(f, INIT, [a], b);
    var s2 := s1.(slots := s1.slots[0 := Entry(6, Start, 1, 1)]);
    var c := Asks(f, s2, 7, Stop, 2, 2, 1);
    RunOfSnoc(f, INIT, [a] + [b], c);
    es := [a] + [b] + [c];
    assert [] + [a] == [a];
  }

  lemma Overtakes3(f: Machine) returns (es: seq<Input>)
    requires IsDaemon(f)
    ensures Overtaking(es)
    ensures var st := RunOf(f, INIT, es);
            st.pmcFd == 5 && st.slots == EmptyTable()[0 := Entry(8, Stop, 2, 4)][1 := Entry(7, Stop, 2, 2)]
  {
    var fs := OneFreed(f);
    var e := Asks(f, RunOf(f, INIT, fs), 8, Stop, 2, 4, 0);
    RunOfSnoc(f, INIT, fs, e);
    es := fs + [e];
    Overwritten(EmptyTable(), None, Entry(8, Stop, 2, 4), Entry(7, Stop, 2, 2));
  }

  lemma Overwritten(s: seq<Slot>, a: Slot, b: Slot, c: Slot)
    requires |s| >= 2
    ensures s[0 := a][1 := c][0 := b] == s[0 := b][1 := c]
  {
  }

  lemma OneFreed(f: Machine) returns (es: seq<Input>)
    requires IsDaemon(f)
    ensures |es| == 4 && Says(es[0], 5, ATTACH, 0) && Says(es[1], 6, Ask(Start, 1), 1) && Says(es[2], 7, Ask(Stop, 2), 2)
    ensures Says(es[3], 5, OkReply(Ask(Start, 1)), 3)
    ensures var st := RunOf(f, INIT, es);
            st.pmcFd == 5 && st.slots == EmptyTable()[0 := None][1 := Entry(7, Stop, 2, 2)]
  {
    var fs := TwoWait(f);
    var s3 := RunOf(f, INIT, fs);
    var d, line := Answers(f, s3, Start, 1, 3, 0);
    RunOfSnoc(f, INIT, fs, d);
    es := fs + [d];
    Overwritten(EmptyTable(), Entry(6, Start, 1, 1), None, Entry(7, Stop, 2, 2));
  }

  /** The daemon's own step function. */
  function TheDaemon(): (f: Machine)
    ensures IsDaemon(f)
  {
    (st: State, e: Input) => Step(st, e)
  }

  /** What the daemon sends for e in the state that a run from its start reaches, and its state then. */
  predicate Ends(es: seq<Input>, e: Input, st: State, sent: seq<Packet>, st': State) {
    StateAfter(INIT, es) == st && Step(st, e).sent == sent && Step(st, e).st == st'
  }

  lemma EndsIn(f: Machine, es: seq<Input>, e: Input)
    requires IsDaemon(f)
    ensures Ends(es, e, RunOf(f, INIT, es), f(RunOf(f, INIT, es), e).sent, f(RunOf(f, INIT, es), e).st)
  {
    RunOfDaemon(f, INIT, es);
    assert f(RunOf(f, INIT, es), e) == Step(RunOf(f, INIT, es), e);
  }

  /** A run from the start after which the response to client 7 is delivered to client 8, who asked later; client 7
      keeps waiting. */
  lemma YoungerIsAnswered() returns (es: seq<Input>, last: Input, line: string, st: State, st': State)
    ensures Overtaking(es) && Says(last, 5, OkReply(Ask(Stop, 2)), 5) && Parse(line) == Some(OkReply(Ask(Stop, 2)))
    ensures Ends(es, last, st, [Packet(8, line)], st')
    ensures |st.slots| == SLOTS && st.slots[1] == Entry(7, Stop, 2, 2) && st.slots[0] == Entry(8, Stop, 2, 4)
    ensures !AgeOrdered(st.slots, 2, 1) && st'.slots == st.slots[0 := None]
  {
    var f := TheDaemon();
    es, last, line := YoungerAnsweredBy(f);
    EndsIn(f, es, last);
    st := RunOf(f, INIT, es);
    st' := f(st, last).st;
  }

  lemma YoungerAnsweredBy(f: Machine) returns (es: seq<Input>, last: Input, line: string)
    requires IsDaemon(f)
    ensures Overtaking(es) && Says(last, 5, OkReply(Ask(Stop, 2)), 5) && Parse(line) == Some(OkReply(Ask(Stop, 2)))
    ensures var st := RunOf(f, INIT, es);
            && |st.slots| == SLOTS && st.slots[1] == Entry(7, Stop, 2, 2) && st.slots[0] == Entry(8, Stop, 2, 4)
            && !AgeOrdered(st.slots, 2, 1)
            && f(st, last).sent == [Packet(8, line)] && f(st, last).st.slots == st.slots[0 := None]
  {
    es := Overtakes3(f);
    var st := RunOf(f, INIT, es);
    last, line := Answers(f, st, Stop, 2, 5, 0);
    assert HasKey(st.slots[0], 2, 1) && HasKey(st.slots[1], 2, 1);
  }

  // ----- an answer that cannot be passed on

  lemma WideAnswer(f: Machine, st: State, at: int) returns (e: Input)
    requires IsDaemon(f) && st.pmcFd == 5 && st.tmcFd == -1
    requires |st.slots| == SLOTS && HasKey(st.slots[0], 1, 1) && st.slots[0].value.clientFd >= 0
    ensures Says(e, 5, CodecCases.WideMessage(153), at)
    ensures f(st, e).sent == [] && f(st, e).st == st.(pmcFd := -1)
  {
    CodecCases.AcceptedNotPrinted();
    e := WideLine(f, st, CodecCases.WideLine(153), CodecCases.WideMessage(153), at);
  }

  lemma WideLine(f: Machine, st: State, line: string, m: Message, at: int) returns (e: Input)
    requires IsDaemon(f) && st.pmcFd == 5 && st.tmcFd == -1
    requires |st.slots| == SLOTS && HasKey(st.slots[0], 1, 1) && st.slots[0].value.clientFd >= 0
    requires Parse(line) == Some(m) && Format(m, WBUF) == None
    requires m.role == Resp && m.seqNo == Some(1) && m.dev == Some(1)
    ensures Says(e, 5, m, at) && f(st, e).sent == [] && f(st, e).st == st.(pmcFd := -1)
  {
    e := LineIn(5, line, at, true);
    assert FirstMatch(st.slots, 1, 1) == 0;
    assert AnsweredSlot(st, 5, m) == 0;
    FailedRelayDropsController(st, e);
    assert f(st, e) == Step(st, e);
  }

  /** A run from the start in which an answer of the PMC that was accepted cannot be printed again: client 6 keeps
      waiting and the PMC loses its link, although every write would have succeeded. */
  lemma UnprintableAnswer() returns (es: seq<Input>, last: Input, st: State)
    ensures |es| == 2 && Says(es[0], 5, ATTACH, 0) && Says(es[1], 6, Ask(Start, 1), 1)
    ensures Says(last, 5, CodecCases.WideMessage(153), 2)
    ensures st.slots == EmptyTable()[0 := Entry(6, Start, 1, 1)] && st.pmcFd == 5
    ensures Ends(es, last, st, [], st.(pmcFd := -1))
  {
    var f := TheDaemon();
    es, last := UnprintableAnswerOf(f);
    EndsIn(f, es, last);
    st := RunOf(f, INIT, es);
  }

  lemma UnprintableAnswerOf(f: Machine) returns (es: seq<Input>, last: Input)
    requires IsDaemon(f)
    ensures |es| == 2 && Says(es[0], 5, ATTACH, 0) && Says(es[1], 6, Ask(Start, 1), 1)
    ensures Says(last, 5, CodecCases.WideMessage(153), 2)
    ensures var st := RunOf(f, INIT, es);
            && st.slots == EmptyTable()[0 := Entry(6, Start, 1, 1)] && st.pmcFd == 5
            && f(st, last).sent == [] && f(st, last).st == st.(pmcFd := -1)
  {
    var a := Registers(f, 0);
    RunOfSnoc(f, INIT, [], a);
    var s1 := INIT.(pmcFd := 5);
    var b := Asks(f, s1, 6, Start, 1, 1, 0);
    RunOfSnoc(f, INIT, [a], b);
    es := [a] + [b];
    assert [] + [a] == [a];
    last := WideAnswer(f, RunOf(f, INIT, es), 2);
  }

  // ----- a START that is lost

  /** A registered, healthy module with the given state, last heard of at time 1. */
  function Module(state: string): ModuleInfo {
    ModuleInfo(true, false, true, state, 1, 1, 0, 1, true, false)
  }

  /** If the states of the modules were recorded: both wait in IDLE. */
  const READY_TO_START := INIT.(pmcFd := 5, modules := Modules(UNSEEN, Module("IDLE"), Module("IDLE")))

  /** In that state the START of device 1 is due. When its write succeeds it takes slot 0; when the write fails nothing is
      sent and no slot is taken, but the job waits for device 1 in either case, and goes on waiting through any number of
      ticks that find the modules so. */
  lemma LostStart(n: nat)
    ensures var m := READY_TO_START.modules;
            var sent, lost := Schedule(READY_TO_START, 2, true), Schedule(READY_TO_START, 2, false);
            && sent.sent == [Packet(5, Render(StartMessage(1, FIRST_SEQ)))] && sent.st.job == PrecleanSent
            && HoldsScheduled(sent.st.slots)
            && lost.sent == [] && lost.st.job == PrecleanSent && lost.st.slots == EmptyTable()
            && var xs := seq(n, i => Seen(m, SchedulerIn(2, true)));
               SeenAfter(lost.st, xs).job == PrecleanSent && SeenAfter(lost.st, xs).slots == EmptyTable()
  {
    var st := READY_TO_START;
    StartIsDue();
    SchedulerSends(st, 2, true);
    assert Schedule(st, 2, true).st.slots[0].value.fromScheduler;
    SchedulerSends(st, 2, false);
    var xs := seq(n, i => Seen(st.modules, SchedulerIn(2, true)));
    LostStartWaits(Schedule(st, 2, false).st, 1, xs);
  }

  lemma StartIsDue()
    ensures |EmptyTable()| == SLOTS && !AnyLive(EmptyTable())
    ensures var ms := RefreshedAll(READY_TO_START.modules, 2);
            StartOf(Idle, false, ms.preclean, ms.deposition) == Some(1) && KeepsWaiting(1, ms.preclean, ms.deposition)
  {
    assert "IDLE" != "DONE" && "IDLE" != "FAULT" && "IDLE" != "PROCESSING";
    NoneLive(EmptyTable());
  }

  // ----- connections and their numbers

  lemma NetSnoc(evs: seq<Event>, ev: Event, n: Net)
    requires Possible(evs) && NetRun(evs) == n && Enabled(n, ev) && (ev.Accepted? ==> Lowest(n, ev.fd))
    ensures Possible(evs + [ev]) && NetRun(evs + [ev]) == NetStep(n, ev)
  {
    assert (evs + [ev])[..|evs|] == evs;
  }

  lemma RegisterNet(n: Net, fd: int) returns (e: Input)
    requires fd in n.open
    ensures Says(e, fd, ATTACH, 0) && Enabled(n, Did(e))
    ensures NetStep(n, Did(e)) == n.(st := n.st.(pmcFd := fd), pmcBy := n.open[fd])
  {
    Correlation.PlainIsWirable(ATTACH);
    WireTrip.WirableReturns(ATTACH);
    e := AttachLine(n, fd, ATTACH);
  }

  lemma AttachLine(n: Net, fd: int, reg: Message) returns (e: Input)
    requires fd in n.open && IsAttach(reg) && reg.dev.None? && Parse(Render(reg)) == Some(reg)
    ensures Says(e, fd, reg, 0) && Enabled(n, Did(e))
    ensures NetStep(n, Did(e)) == n.(st := n.st.(pmcFd := fd), pmcBy := n.open[fd])
  {
    e := LineIn(fd, Render(reg), 0, true);
    Correlation.AttachOutcome(n.st, fd, reg, 0);
    assert Step(n.st, e).sent == [Packet(fd, Render(OkReply(reg)))];
    assert Reachable(n, Step(n.st, e).sent);
    assert Attempted(n, e) == e;
    assert Attaches(e, PmcLink) && !Attaches(e, TmcLink) && !Takes(n, e);
  }

  predicate IsAskFor(req: Message) {
    req.role == Req && Router.IsDeviceCommand(req.typ) && req.typ != Ping && req.seqNo.Some? && req.dev == Some(1)
  }

  lemma AskLine(n: Net, fd: int, req: Message, at: int) returns (e: Input)
    requires fd in n.open && WireTrip.Wirable(req) && IsAskFor(req) && n.st.pmcFd >= 0
    ensures Says(e, fd, req, at) && Enabled(n, Did(e)) && GoesTo(n, e, PmcLink) && Format(req, WBUF).Some?
  {
    e := LineIn(fd, Render(req), at, true);
    Correlation.WirableFits(req);
  }

  /** Client fd asks for a START under sequence number 1 while some connection has the number of the link. */
  lemma AskNet(n: Net, fd: int, at: int) returns (e: Input, line: string)
    requires fd in n.open && n.st.pmcFd >= 0 && n.st.pmcFd in n.open && n.st.slots == EmptyTable()
    ensures Says(e, fd, Ask(Start, 1), at) && Enabled(n, Did(e)) && Parse(line) == Some(Ask(Start, 1))
    ensures Happened(n, e).sent == [Packet(n.st.pmcFd, line)]
    ensures NetStep(n, Did(e)) == n.(st := n.st.(slots := EmptyTable()[0 := Entry(fd, Start, 1, at)]), askers := n.askers[0 := n.open[fd]])
  {
    PlainAsk(Start, 1);
    Correlation.WirableFits(Ask(Start, 1));
    e := AskLine(n, fd, Ask(Start, 1), at);
    line := Render(Ask(Start, 1));
    HolderIsAsked(n, e, PmcLink);
  }

  /** The connection with the number of the link answers the START in slot 0. */
  lemma AnswerNet(n: Net, at: int) returns (e: Input, line: string)
    requires n.st.pmcFd in n.open && |n.st.slots| == SLOTS && HasKey(n.st.slots[0], 1, 1)
    requires n.st.slots[0].value.clientFd in n.open && n.st.slots[0].value.clientFd >= 0
    ensures Says(e, n.st.pmcFd, OkReply(Ask(Start, 1)), at) && Enabled(n, Did(e))
    ensures Parse(line) == Some(OkReply(Ask(Start, 1)))
    ensures Happened(n, e).sent == [Packet(n.st.slots[0].value.clientFd, line)]
    ensures var n' := NetStep(n, Did(e)); n'.st.slots == n.st.slots[0 := None] && n'.open == n.open && n'.st.pmcFd == n.st.pmcFd
  {
    PlainAsk(Start, 1);
    Correlation.WirableFits(OkReply(Ask(Start, 1)));
    e, line := AnswerLine(n, OkReply(Ask(Start, 1)), at);
  }

  lemma AnswerLine(n: Net, resp: Message, at: int) returns (e: Input, line: string)
    requires n.st.pmcFd in n.open && |n.st.slots| == SLOTS && HasKey(n.st.slots[0], 1, 1)
    requires n.st.slots[0].value.clientFd in n.open && n.st.slots[0].value.clientFd >= 0
    requires resp.role == Resp && resp.seqNo == Some(1) && resp.dev == Some(1)
    requires Parse(Render(resp)) == Some(resp) && |Render(resp)| + 1 <= WBUF
    ensures Says(e, n.st.pmcFd, resp, at) && Enabled(n, Did(e)) && line == Render(resp)
    ensures Happened(n, e).sent == [Packet(n.st.slots[0].value.clientFd, line)]
    ensures var n' := NetStep(n, Did(e)); n'.st.slots == n.st.slots[0 := None] && n'.open == n.open && n'.st.pmcFd == n.st.pmcFd
  {
    e, line := LineIn(n.st.pmcFd, Render(resp), at, true), Render(resp);
    assert FirstMatch(n.st.slots, 1, 1) == 0;
    HolderAnswers(n, e, PmcLink, 0);
  }

  /** The PMC connects under number 5 and registers. */
  lemma PmcJoins() returns (evs: seq<Event>)
    ensures |evs| == 2 && evs[0] == Accepted(5) && evs[1].Did? && Says(evs[1].e, 5, ATTACH, 0)
    ensures Possible(evs) && NetRun(evs) == START.(st := INIT.(pmcFd := 5), open := map[5 := 0], count := 1)
  {
    NetSnoc([], Accepted(5), START);
    var n1 := START.(open := map[5 := 0], count := 1);
    assert [] + [Accepted(5)] == [Accepted(5)];
    var e := RegisterNet(n1, 5);
    NetSnoc([Accepted(5)], Did(e), n1);
    evs := [Accepted(5)] + [Did(e)];
  }

  lemma Drops5(n: Net)
    requires 5 in n.open
    ensures NetStep(n, Did(DroppedIn(5))) == n.(open := n.open - {5})
  {
  }

  /** A run from the start in which the idle scan closes the silent PMC, and the next client is given its number: the
      START that another client sends for device 1 goes to that newcomer, which never registered, and the newcomer's
      response is passed on as the PMC's. */
  lemma NewcomerIsTakenForPmc() returns (evs: seq<Event>, ask: Input, answer: Input, asked: string, answered: string)
    ensures |evs| == 5 && Possible(evs + [Did(ask), Did(answer)])
    ensures evs[0] == Accepted(5) && evs[1].Did? && Says(evs[1].e, 5, ATTACH, 0)
    ensures evs[2] == Did(DroppedIn(5)) && evs[3] == Accepted(5) && evs[4] == Accepted(6)
    ensures Says(ask, 6, Ask(Start, 1), 70000) && Says(answer, 5, OkReply(Ask(Start, 1)), 70001)
    ensures Parse(asked) == Some(Ask(Start, 1)) && Parse(answered) == Some(OkReply(Ask(Start, 1)))
    ensures var n := NetRun(evs);
            && n.open == map[5 := 1, 6 := 2] && LinkFd(n.st, PmcLink) == 5 && n.pmcBy == 0 && StatusOf(n, PmcLink) == Wrong
            && Happened(n, ask).sent == [Packet(5, asked)]
            && Happened(NetStep(n, Did(ask)), answer).sent == [Packet(6, answered)]
  {
    evs := NumberReused();
    ask, answer, asked, answered := HolderServes(evs, NetRun(evs));
  }

  /** Client 6 asks, and the connection under number 5 is asked and answers. */
  lemma HolderServes(evs: seq<Event>, n: Net) returns (ask: Input, answer: Input, asked: string, answered: string)
    requires Possible(evs) && NetRun(evs) == n && n.st.pmcFd == 5 && 5 in n.open && 6 in n.open && n.st.slots == EmptyTable()
    ensures Possible(evs + [Did(ask), Did(answer)])
    ensures Says(ask, 6, Ask(Start, 1), 70000) && Says(answer, 5, OkReply(Ask(Start, 1)), 70001)
    ensures Parse(asked) == Some(Ask(Start, 1)) && Parse(answered) == Some(OkReply(Ask(Start, 1)))
    ensures Happened(n, ask).sent == [Packet(5, asked)] && Happened(NetStep(n, Did(ask)), answer).sent == [Packet(6, answered)]
  {
    ask, asked := AskNet(n, 6, 70000);
    answer, answered := HolderReplies(evs, n, ask, NetStep(n, Did(ask)));
  }

  lemma HolderReplies(evs: seq<Event>, n: Net, ask: Input, n': Net) returns (answer: Input, answered: string)
    requires Possible(evs) && NetRun(evs) == n && Enabled(n, Did(ask)) && n' == NetStep(n, Did(ask))
    requires n'.st.pmcFd == 5 && 5 in n'.open && 6 in n'.open && n'.st.slots == EmptyTable()[0 := Entry(6, Start, 1, 70000)]
    ensures Possible(evs + [Did(ask), Did(answer)]) && Says(answer, 5, OkReply(Ask(Start, 1)), 70001)
    ensures Parse(answered) == Some(OkReply(Ask(Start, 1))) && Happened(n', answer).sent == [Packet(6, answered)]
  {
    NetSnoc(evs, Did(ask), n);
    answer, answered := AnswerOn(evs + [Did(ask)], n', 70001);
    assert evs + [Did(ask)] + [Did(answer)] == evs + [Did(ask), Did(answer)];
  }

  /** One more answer, in a run that has reached n. */
  lemma AnswerOn(evs: seq<Event>, n: Net, at: int) returns (e: Input, line: string)
    requires Possible(evs) && NetRun(evs) == n
    requires n.st.pmcFd in n.open && |n.st.slots| == SLOTS && HasKey(n.st.slots[0], 1, 1)
    requires n.st.slots[0].value.clientFd in n.open && n.st.slots[0].value.clientFd >= 0
    ensures Says(e, n.st.pmcFd, OkReply(Ask(Start, 1)), at) && Possible(evs + [Did(e)])
    ensures Parse(line) == Some(OkReply(Ask(Start, 1)))
    ensures Happened(n, e).sent == [Packet(n.st.slots[0].value.clientFd, line)]
  {
    e, line := AnswerNet(n, at);
    NetSnoc(evs, Did(e), n);
  }

  lemma NumberReused() returns (evs: seq<Event>)
    ensures |evs| == 5 && Possible(evs)
    ensures evs[0] == Accepted(5) && evs[1].Did? && Says(evs[1].e, 5, ATTACH, 0)
    ensures evs[2] == Did(DroppedIn(5)) && evs[3] == Accepted(5) && evs[4] == Accepted(6)
    ensures NetRun(evs) == START.(st := INIT.(pmcFd := 5), open := map[5 := 1, 6 := 2], count := 3)
  {
    var fs := PmcJoins();
    var n := START.(st := INIT.(pmcFd := 5), open := map[5 := 0], count := 1);
    DropOn(fs, n);
    var n3 := n.(open := map[]);
    assert n.open - {5} == map[];
    AcceptOn(fs + [Did(DroppedIn(5))], n3, 5);
    var n4 := n3.(open := map[5 := 1], count := 2);
    AcceptOn(fs + [Did(DroppedIn(5))] + [Accepted(5)], n4, 6);
    evs := fs + [Did(DroppedIn(5))] + [Accepted(5)] + [Accepted(6)];
  }

  /** The PMC and client 6 are connected. */
  lemma TwoJoin() returns (evs: seq<Event>)
    ensures |evs| == 3 && Possible(evs) && evs[0] == Accepted(5) && evs[2] == Accepted(6)
    ensures evs[1].Did? && Says(evs[1].e, 5, ATTACH, 0)
    ensures NetRun(evs) == START.(st := INIT.(pmcFd := 5), open := map[5 := 0, 6 := 1], count := 2)
  {
    var fs := PmcJoins();
    AcceptOn(fs, NetRun(fs), 6);
    evs := fs + [Accepted(6)];
  }

  lemma DropOn(evs: seq<Event>, n: Net)
    requires Possible(evs) && NetRun(evs) == n && 5 in n.open
    ensures Possible(evs + [Did(DroppedIn(5))]) && NetRun(evs + [Did(DroppedIn(5))]) == n.(open := n.open - {5})
  {
    NetSnoc(evs, Did(DroppedIn(5)), n);
    Drops5(n);
  }

  lemma PmcDropped() returns (evs: seq<Event>)
    ensures |evs| == 4 && Possible(evs) && evs[0] == Accepted(5) && evs[1].Did? && Says(evs[1].e, 5, ATTACH, 0)
    ensures evs[2] == Accepted(6) && evs[3] == Did(DroppedIn(5))
    ensures NetRun(evs) == START.(st := INIT.(pmcFd := 5), open := map[6 := 1], count := 2)
  {
    var fs := TwoJoin();
    evs := Dropped5(fs, NetRun(fs));
  }

  lemma Dropped5(fs: seq<Event>, n: Net) returns (evs: seq<Event>)
    requires Possible(fs) && NetRun(fs) == n && n.open == map[5 := 0, 6 := 1]
    ensures evs == fs + [Did(DroppedIn(5))] && Possible(evs) && NetRun(evs) == n.(open := map[6 := 1])
  {
    DropOn(fs, n);
    evs := fs + [Did(DroppedIn(5))];
    assert n.open - {5} == map[6 := 1];
  }

  lemma AskStale(n: Net, fd: int, at: int) returns (ask: Input)
    requires NetInv(n) && fd in n.open && n.st.pmcFd >= 0 && n.st.pmcFd !in n.open
    ensures Says(ask, fd, Ask(Start, 1), at) && Enabled(n, Did(ask)) && Happened(n, ask).sent == []
    ensures NetStep(n, Did(ask)).open == n.open - {fd} && LinkFd(NetStep(n, Did(ask)).st, PmcLink) == n.st.pmcFd
  {
    PlainAsk(Start, 1);
    ask := AskLine(n, fd, Ask(Start, 1), at);
    StaleLinkCost(n, ask, PmcLink);
  }

  /** A run from the start in which the idle scan closes the silent PMC and nobody is given its number: the START of
      client 6, connected before, reaches nobody and costs client 6 its own connection. */
  lemma StaleLinkRun() returns (evs: seq<Event>, ask: Input)
    ensures |evs| == 4 && Possible(evs + [Did(ask)])
    ensures evs[0] == Accepted(5) && evs[1].Did? && Says(evs[1].e, 5, ATTACH, 0)
    ensures evs[2] == Accepted(6) && evs[3] == Did(DroppedIn(5)) && Says(ask, 6, Ask(Start, 1), 70000)
    ensures var n := NetRun(evs);
            && LinkFd(n.st, PmcLink) == 5 && n.open == map[6 := 1]
            && Happened(n, ask).sent == [] && NetStep(n, Did(ask)).open == map[]
            && LinkFd(NetStep(n, Did(ask)).st, PmcLink) == 5
  {
    evs := PmcDropped();
    InvHolds(evs);
    ask := AskStale(NetRun(evs), 6, 70000);
    NetSnoc(evs, Did(ask), NetRun(evs));
    assert map[6 := 1] - {6} == map[];
  }

  lemma Gone6(n: Net)
    requires 6 in n.open && n.st.pmcFd == 5 && n.st.tmcFd == -1
    ensures NetStep(n, Did(GoneIn(6))) == n.(open := n.open - {6})
  {
  }

  /** A run from the start in which client 6 asks, leaves, and the next client is given its number: the newcomer is
      handed the response to a request it never sent. */
  lemma NewcomerIsAnswered() returns (evs: seq<Event>, answer: Input, answered: string)
    ensures |evs| == 6 && Possible(evs + [Did(answer)])
    ensures evs[0] == Accepted(5) && evs[1].Did? && Says(evs[1].e, 5, ATTACH, 0) && evs[2] == Accepted(6)
    ensures evs[3].Did? && Says(evs[3].e, 6, Ask(Start, 1), 1) && evs[4] == Did(GoneIn(6)) && evs[5] == Accepted(6)
    ensures Says(answer, 5, OkReply(Ask(Start, 1)), 2) && Parse(answered) == Some(OkReply(Ask(Start, 1)))
    ensures var n := NetRun(evs);
            && n.open == map[5 := 0, 6 := 2] && 0 in n.askers && n.askers[0] == 1
            && Happened(n, answer).sent == [Packet(6, answered)]
  {
    evs := AskerReplaced();
    var n := NetRun(evs);
    answer, answered := AnswerNet(n, 2);
    NetSnoc(evs, Did(answer), n);
  }

  /** One more request, in a run that has reached n. */
  lemma AskOn(evs: seq<Event>, n: Net, fd: int, at: int) returns (e: Input)
    requires Possible(evs) && NetRun(evs) == n
    requires fd in n.open && n.st.pmcFd >= 0 && n.st.pmcFd in n.open && n.st.slots == EmptyTable()
    ensures Says(e, fd, Ask(Start, 1), at) && Possible(evs + [Did(e)])
    ensures NetRun(evs + [Did(e)]) ==
              n.(st := n.st.(slots := EmptyTable()[0 := Entry(fd, Start, 1, at)]), askers := n.askers[0 := n.open[fd]])
  {
    var line;
    e, line := AskNet(n, fd, at);
    NetSnoc(evs, Did(e), n);
  }

  lemma AskerWaits() returns (evs: seq<Event>)
    ensures |evs| == 4 && Possible(evs)
    ensures evs[0] == Accepted(5) && evs[1].Did? && Says(evs[1].e, 5, ATTACH, 0) && evs[2] == Accepted(6)
    ensures evs[3].Did? && Says(evs[3].e, 6, Ask(Start, 1), 1)
    ensures NetRun(evs) ==
              Net(INIT.(pmcFd := 5, slots := EmptyTable()[0 := Entry(6, Start, 1, 1)]), map[5 := 0, 6 := 1], 2, 0, 0, map[0 := 1])
  {
    var fs := TwoJoin();
    var e := AskOn(fs, START.(st := INIT.(pmcFd := 5), open := map[5 := 0, 6 := 1], count := 2), 6, 1);
    evs := fs + [Did(e)];
  }

  lemma AskerReplaced() returns (evs: seq<Event>)
    ensures |evs| == 6 && Possible(evs)
    ensures evs[0] == Accepted(5) && evs[1].Did? && Says(evs[1].e, 5, ATTACH, 0) && evs[2] == Accepted(6)
    ensures evs[3].Did? && Says(evs[3].e, 6, Ask(Start, 1), 1) && evs[4] == Did(GoneIn(6)) && evs[5] == Accepted(6)
    ensures NetRun(evs) ==
              Net(INIT.(pmcFd := 5, slots := EmptyTable()[0 := Entry(6, Start, 1, 1)]), map[5 := 0, 6 := 2], 3, 0, 0, map[0 := 1])
  {
    var fs := AskerWaits();
    evs := fs + [Did(GoneIn(6))] + [Accepted(6)];
    Replaced(fs, NetRun(fs));
  }

  lemma GoneOn(evs: seq<Event>, n: Net)
    requires Possible(evs) && NetRun(evs) == n && 6 in n.open && n.st.pmcFd == 5 && n.st.tmcFd == -1
    ensures Possible(evs + [Did(GoneIn(6))]) && NetRun(evs + [Did(GoneIn(6))]) == n.(open := n.open - {6})
  {
    NetSnoc(evs, Did(GoneIn(6)), n);
    Gone6(n);
  }

  lemma AcceptOn(evs: seq<Event>, n: Net, fd: int)
    requires Possible(evs) && NetRun(evs) == n && Lowest(n, fd)
    ensures Possible(evs + [Accepted(fd)])
    ensures NetRun(evs + [Accepted(fd)]) == n.(open := n.open[fd := n.count], count := n.count + 1)
  {
    NetSnoc(evs, Accepted(fd), n);
  }

  /** Client 6 leaves, and another one is given its number. */
  lemma Replaced(evs: seq<Event>, n: Net)
    requires Possible(evs) && NetRun(evs) == n && n.open == map[5 := 0, 6 := 1] && n.count == 2
    requires n.st.pmcFd == 5 && n.st.tmcFd == -1
    ensures Possible(evs + [Did(GoneIn(6))] + [Accepted(6)])
    ensures NetRun(evs + [Did(GoneIn(6))] + [Accepted(6)]) == n.(open := map[5 := 0, 6 := 2], count := 3)
  {
    var m := n.(open := map[5 := 0]);
    GoneOn(evs, n);
    Without6();
    LowestIs6(m);
    AcceptOn(evs + [Did(GoneIn(6))], m, 6);
  }

  lemma Without6()
    ensures map[5 := 0, 6 := 1] - {6} == map[5 := 0]
    ensures forall k: nat :: map[5 := 0][6 := k] == map[5 := 0, 6 := k]
  {
  }

  lemma LowestIs6(n: Net)
    requires n.open == map[5 := 0]
    ensures Lowest(n, 6)
  {
  }
}
