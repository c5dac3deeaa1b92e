/** What equipmentd's steps mean to those who see them, field by field: answers, refusals, acknowledgements, events. */
module Replies {
  import opened Wrappers
  import opened Ints
  import opened Text
  import opened Messages
  import opened Codec
  import opened Tracker
  import opened Registry
  import opened Daemon
  import opened DaemonRuns
  import S = Scheduler
  import R = Router
  import Links

  // ----- acknowledgements

  /** Only the fault latch of the device's module is cleared. */
  predicate OnlyLatchCleared(ms: Modules, ms': Modules, dev: u32) {
    && ms'.preclean == (if dev == 1 then ms.preclean.(faultLatched := false) else ms.preclean)
    && ms'.deposition == (if dev == 2 then ms.deposition.(faultLatched := false) else ms.deposition)
    && ms'.tmc == (if dev == 100 then ms.tmc.(faultLatched := false) else ms.tmc)
  }

  lemma FreedByRelease(st: State, e: Input, i: nat)
    requires e.LineIn? && i < |st.slots| && st.slots[i].Some?
    requires i < |Step(st, e).st.slots| && Step(st, e).st.slots[i].None?
    ensures MoveOf(st, e) == Release(i)
  {
    StepMoves(st, e);
  }

  lemma ReleasedState(st: State, e: Input, m: Message, i: nat)
    requires e.LineIn? && Parse(e.line) == Some(m) && MoveOf(st, e) == Release(i)
    ensures i < |st.slots| && st.slots[i].Some?
    ensures Step(st, e).st == Settled(st, i, m)
  {
    assert MoveOf(st, e) == MessageMove(st, e.fd, m, e.now, e.wr);
    var k := AnsweredSlot(st, e.fd, m);
    assert k == i;
    assert HandleMessage(st, e.fd, Some(m), e.now, e.wr) == Answer(st, i, m, e.wr);
  }

  /** What the response that frees an entry does to the job and the modules. ERROR, and any response without ok=1, does
      nothing; a positive one moves the job by the command it answers, and after a RESET clears the latch of the
      entry's device. */
  lemma AcknowledgementSays(st: State, e: Input, i: nat)
    requires e.LineIn? && i < |st.slots| && st.slots[i].Some?
    requires i < |Step(st, e).st.slots| && Step(st, e).st.slots[i].None?
    ensures Parse(e.line).Some? && Parse(e.line).value.role == Resp
    ensures var m, p, st' := Parse(e.line).value, st.slots[i].value, Step(st, e).st;
            if m.typ == Error || m.ok != Some(1) then st'.job == st.job && st'.modules == st.modules
            else
              && st'.job == (match p.typ case Stop => S.Stopped case Reset => S.Idle case Fault => S.Failed case _ => st.job)
              && (if p.typ == Reset then OnlyLatchCleared(st.modules, st'.modules, p.dev) else st'.modules == st.modules)
  {
    FreedByRelease(st, e, i);
    var parsed := Parse(e.line);
    assert parsed.Some?;
    ReleasedState(st, e, parsed.value, i);
    ReleasedLine(st, e, parsed.value, i);
    SettledSays(st, i, parsed.value);
  }

  lemma SettledSays(st: State, i: nat, m: Message)
    requires i < |st.slots| && st.slots[i].Some?
    ensures var p, st' := st.slots[i].value, Settled(st, i, m);
            if m.typ == Error || m.ok != Some(1) then st'.job == st.job && st'.modules == st.modules
            else
              && st'.job == (match p.typ case Stop => S.Stopped case Reset => S.Idle case Fault => S.Failed case _ => st.job)
              && (if p.typ == Reset then OnlyLatchCleared(st.modules, st'.modules, p.dev) else st'.modules == st.modules)
  {
  }

  // ----- events

  /** What an event makes of the module of its device. */
  predicate EventOn(x: ModuleInfo, x': ModuleInfo, m: Message, now: int) {
    match m.typ
    case Register => x' == x.(registered := true)
    case Telemetry => x' == x.(registered := true, healthy := true, lastUpdateMs := now, lastTelemetryMs := now)
    case Status =>
      if m.state == None then x' == x.(registered := true)
      else
        && x'.registered && x'.healthy && x'.lastUpdateMs == now && x'.lastStatusMs == now
        && x'.busy == (m.state.value in {"PROCESSING", "READY", "TRANSFERRING"})
        && x'.faultLatched == (x.faultLatched || m.state.value == "FAULT")
        && x'.hasState == x.hasState && x'.currentState == x.currentState && x'.lastTelemetryMs == x.lastTelemetryMs
    case _ => x' == x
  }

  /** An event changes the module of its own device and nothing else: 1 is preclean, 2 deposition, 100 the transfer module,
      which sends no telemetry. Nobody is answered. */
  lemma EventSays(st: State, e: Input, m: Message)
    requires e.LineIn? && Parse(e.line) == Some(m) && m.role == Evt
    ensures var o := Step(st, e);
            && o.sent == [] && o.ret >= 0 && o.st == st.(modules := o.st.modules)
            && (if m.dev == Some(1) then EventOn(st.modules.preclean, o.st.modules.preclean, m, e.now)
                else o.st.modules.preclean == st.modules.preclean)
            && (if m.dev == Some(2) then EventOn(st.modules.deposition, o.st.modules.deposition, m, e.now)
                else o.st.modules.deposition == st.modules.deposition)
            && (if m.dev == Some(100) && m.typ != Telemetry then EventOn(st.modules.tmc, o.st.modules.tmc, m, e.now)
                else o.st.modules.tmc == st.modules.tmc)
  {
    assert HandleMessage(st, e.fd, Some(m), e.now, e.wr) == Routing(st, e.fd, m, e.now, e.wr);
    EffectSays(st.modules, m, e.now);
  }

  lemma EffectSays(ms: Modules, m: Message, now: int)
    ensures var ms' := EventEffect(ms, m, now);
            && (if m.dev == Some(1) then EventOn(ms.preclean, ms'.preclean, m, now) else ms'.preclean == ms.preclean)
            && (if m.dev == Some(2) then EventOn(ms.deposition, ms'.deposition, m, now) else ms'.deposition == ms.deposition)
            && (if m.dev == Some(100) && m.typ != Telemetry then EventOn(ms.tmc, ms'.tmc, m, now) else ms'.tmc == ms.tmc)
  {
  }

  // ----- the fault latch over runs

  function Latched(ms: Modules, dev: u32): bool {
    if dev == 1 then ms.preclean.faultLatched
    else if dev == 2 then ms.deposition.faultLatched
    else dev == 100 && ms.tmc.faultLatched
  }

  /** A module reports FAULT. */
  predicate ReportsFault(e: Input, dev: u32) {
    e.LineIn? && Parse(e.line).Some? &&
    var m := Parse(e.line).value;
    m.role == Evt && m.typ == Status && m.dev == Some(dev) && m.state == Some("FAULT")
  }

  /** A positive response frees the entry of a RESET for the device. */
  predicate ConfirmsReset(st: State, e: Input, dev: u32) {
    e.LineIn? && Parse(e.line).Some? &&
    var m := Parse(e.line).value;
    && m.typ != Error && m.ok == Some(1)
    && exists i | 0 <= i < |st.slots| ::
         st.slots[i].Some? && st.slots[i].value.typ == Reset && st.slots[i].value.dev == dev
         && i < |Step(st, e).st.slots| && Step(st, e).st.slots[i].None?
  }

  datatype LatchMark = Sets | Clears | Neither

  function MarkOf(st: State, e: Input, dev: u32): LatchMark {
    if ReportsFault(e, dev) then Sets else if ConfirmsReset(st, e, dev) then Clears else Neither
  }

  /** A line that is neither an event nor a response for an entry leaves the modules alone. */
  lemma OtherLineKeeps(st: State, e: Input, m: Message)
    requires e.LineIn? && Parse(e.line) == Some(m) && m.role != Evt && !MoveOf(st, e).Release?
    ensures Step(st, e).st.modules == st.modules
  {
    var o := HandleMessage(st, e.fd, Some(m), e.now, e.wr);
    assert Detached(o.st, e.fd).modules == o.st.modules;
  }

  lemma LineLatch(st: State, e: Input, m: Message, dev: u32)
    requires e.LineIn? && Parse(e.line) == Some(m) && dev in {1, 2, 100}
    ensures Latched(Step(st, e).st.modules, dev) ==
              match MarkOf(st, e, dev) case Sets => true case Clears => false case Neither => Latched(st.modules, dev)
  {
    if m.role == Evt {
      EventSays(st, e, m);
      EventKeepsSlots(st, e, dev);
    } else if MoveOf(st, e).Release? {
      ReleaseLatch(st, e, m, MoveOf(st, e).i, dev);
    } else {
      OtherLineKeeps(st, e, m);
      NotFreed(st, e, dev);
    }
  }

  lemma EventKeepsSlots(st: State, e: Input, dev: u32)
    requires Step(st, e).st.slots == st.slots
    ensures !ConfirmsReset(st, e, dev)
  {
  }

  lemma NotFreed(st: State, e: Input, dev: u32)
    requires e.LineIn? && !MoveOf(st, e).Release?
    ensures !ConfirmsReset(st, e, dev)
  {
    if i :| 0 <= i < |st.slots| && st.slots[i].Some? && i < |Step(st, e).st.slots| && Step(st, e).st.slots[i].None? {
      FreedByRelease(st, e, i);
    }
  }

  lemma ReleaseLatch(st: State, e: Input, m: Message, i: nat, dev: u32)
    requires e.LineIn? && Parse(e.line) == Some(m) && MoveOf(st, e) == Release(i) && m.role != Evt && dev in {1, 2, 100}
    ensures Latched(Step(st, e).st.modules, dev) == if ConfirmsReset(st, e, dev) then false else Latched(st.modules, dev)
  {
    ReleasedState(st, e, m, i);
    SettledSays(st, i, m);
    var st' := Step(st, e).st;
    assert st'.slots == st.slots[i := None];
    assert st'.slots[i].None?;
    assert ConfirmsReset(st, e, dev) <==>
           m.typ != Error && m.ok == Some(1) && st.slots[i].value.typ == Reset && st.slots[i].value.dev == dev by {
      assert forall k | 0 <= k < |st.slots| && k != i :: st'.slots[k] == st.slots[k];
    }
  }

  lemma LatchStep(st: State, e: Input, dev: u32)
    requires dev in {1, 2, 100}
    ensures Latched(Step(st, e).st.modules, dev) ==
              match MarkOf(st, e, dev) case Sets => true case Clears => false case Neither => Latched(st.modules, dev)
  {
    if e.LineIn? {
      var parsed := Parse(e.line);
      if parsed.Some? {
        LineLatch(st, e, parsed.value, dev);
      } else {
        BadLineKeeps(st, e);
      }
    } else {
      OtherInputKeeps(st, e, dev);
    }
  }

  lemma BadLineKeeps(st: State, e: Input)
    requires e.LineIn? && Parse(e.line) == None
    ensures Step(st, e).st.modules == st.modules
  {
    var o := HandleMessage(st, e.fd, None, e.now, e.wr);
    assert Detached(o.st, e.fd).modules == o.st.modules;
  }

  lemma OtherInputKeeps(st: State, e: Input, dev: u32)
    requires !e.LineIn?
    ensures Latched(Step(st, e).st.modules, dev) == Latched(st.modules, dev)
  {
  }

  function Marks(es: seq<Input>, dev: u32): (ms: seq<LatchMark>)
    ensures |ms| == |es|
  {
    if es == [] then []
    else
      var fs := es[..|es| - 1];
      Marks(fs, dev) + [MarkOf(StateAfter(INIT, fs), es[|es| - 1], dev)]
  }

  ghost predicate LatchShown(es: seq<Input>, dev: u32) {
    Latched(StateAfter(INIT, es).modules, dev) <==> Links.LastIs(Marks(es, dev), Sets, Neither)
  }

  lemma LatchSnoc(fs: seq<Input>, e: Input, dev: u32)
    requires dev in {1, 2, 100} && LatchShown(fs, dev)
    ensures LatchShown(fs + [e], dev)
  {
    MarksSnoc(fs, e, dev);
    LatchStep(StateAfter(INIT, fs), e, dev);
    AfterSnoc(INIT, fs, e);
    Links.LastIsSnoc(Marks(fs, dev), MarkOf(StateAfter(INIT, fs), e, dev), Sets, Neither);
  }

  lemma MarksSnoc(fs: seq<Input>, e: Input, dev: u32)
    ensures Marks(fs + [e], dev) == Marks(fs, dev) + [MarkOf(StateAfter(INIT, fs), e, dev)]
  {
    assert (fs + [e])[..|fs|] == fs;
  }

  lemma NoneLatched(dev: u32)
    ensures !Latched(StateAfter(INIT, []).modules, dev) && Marks([], dev) == []
  {
  }

  /** In every run from the start the fault latch of a device is set if and only if its module reported FAULT and no RESET
      for it was confirmed since; in particular it stays set however often the module reports other states. */
  lemma {:induction false} LatchedIff(es: seq<Input>, dev: u32)
    requires dev in {1, 2, 100}
    ensures Latched(StateAfter(INIT, es).modules, dev) <==> Links.LastIs(Marks(es, dev), Sets, Neither)
  {
    LatchAlways(es, dev);
  }

  lemma {:induction false} LatchAlways(es: seq<Input>, dev: u32)
    requires dev in {1, 2, 100}
    ensures LatchShown(es, dev)
  {
    if es == [] {
      NoneLatched(dev);
    } else {
      var fs, e := es[..|es| - 1], es[|es| - 1];
      LatchAlways(fs, dev);
      LatchSnoc(fs, e, dev);
      assert fs + [e] == es;
    }
  }

  // ----- what a client is told

  /** The connection that has a device's requests; negative if there is none. */
  function Owner(st: State, dev: u32): int {
    if dev == 100 then st.tmcFd else if dev in {1, 2} then st.pmcFd else -1
  }

  predicate IsCommand(t: MsgType) {
    t in {Status, Start, Stop, Reset, Fault}
  }

  /** A request that can go to a controller. */
  predicate Routable(st: State, m: Message) {
    m.role == Req && m.seqNo.Some? && IsCommand(m.typ) && m.dev.Some? && Owner(st, m.dev.value) >= 0
  }

  lemma ReplyLine(st: State, fd: int, r: Message)
    requires Storable(r) && FloatFree(r)
    ensures Respond(st, fd, r, true) == Outcome(st, 1, [Packet(fd, Render(r))], NO_ENTRIES)
  {
    FloatFreeSize(r);
  }

  lemma RefusalStorable(m: Message)
    ensures forall code: i32 ::
              && Storable(ErrorReply(m, code, "MISSING_SEQ")) && Storable(ErrorReply(m, code, "UNKNOWN_TYPE"))
              && Storable(ErrorReply(m, code, "MISSING_DEV")) && Storable(ErrorReply(m, code, "TMC_NOT_CONNECTED"))
              && Storable(ErrorReply(m, code, "PMC_NOT_CONNECTED")) && Storable(ErrorReply(m, code, "UNKNOWN_DEV"))
  {
  }

  lemma RouteSays(st: State, m: Message) returns (r: Message)
    requires m.role == Req && !Routable(st, m)
    ensures R.Route(m, st.pmcFd, st.tmcFd) == R.Reply(r) && Storable(r) && FloatFree(r)
    ensures if m.seqNo == None then IsRefusal(r, m, 400, "MISSING_SEQ")
            else if m.typ == Ping then IsConsent(r, m)
            else if !IsCommand(m.typ) then IsRefusal(r, m, 404, "UNKNOWN_TYPE")
            else if m.dev == None then IsRefusal(r, m, 400, "MISSING_DEV")
            else if m.dev == Some(100) then IsRefusal(r, m, 503, "TMC_NOT_CONNECTED")
            else if m.dev in {Some(1), Some(2)} then IsRefusal(r, m, 503, "PMC_NOT_CONNECTED")
            else IsRefusal(r, m, 404, "UNKNOWN_DEV")
  {
    RefusalStorable(m);
    r := R.Route(m, st.pmcFd, st.tmcFd).out;
  }

  /** A request that cannot go to a controller is answered at once, to its sender and in this order of reasons; PING is
      answered yes. Nothing else changes. */
  lemma RefusalSays(st: State, fd: int, line: string, m: Message, now: int) returns (r: Message)
    requires Parse(line) == Some(m) && m.role == Req && !IsAttach(m) && !Routable(st, m)
    ensures Step(st, LineIn(fd, line, now, true)).st == st
    ensures Step(st, LineIn(fd, line, now, true)).sent == [Packet(fd, Render(r))]
    ensures if m.seqNo == None then IsRefusal(r, m, 400, "MISSING_SEQ")
            else if m.typ == Ping then IsConsent(r, m)
            else if !IsCommand(m.typ) then IsRefusal(r, m, 404, "UNKNOWN_TYPE")
            else if m.dev == None then IsRefusal(r, m, 400, "MISSING_DEV")
            else if m.dev == Some(100) then IsRefusal(r, m, 503, "TMC_NOT_CONNECTED")
            else if m.dev in {Some(1), Some(2)} then IsRefusal(r, m, 503, "PMC_NOT_CONNECTED")
            else IsRefusal(r, m, 404, "UNKNOWN_DEV")
  {
    r := RouteSays(st, m);
    assert HandleMessage(st, fd, Some(m), now, true) == Routing(st, fd, m, now, true);
    ReplyLine(st, fd, r);
  }

  /** A line that cannot be read is answered ERROR 400 without a key. */
  lemma BadLineSays(st: State, fd: int, line: string, now: int) returns (r: Message)
    requires Parse(line) == None
    ensures Step(st, LineIn(fd, line, now, true)).st == st
    ensures Step(st, LineIn(fd, line, now, true)).sent == [Packet(fd, Render(r))]
    ensures r == Message(Resp, Error, None, None, Some(0), Some(400), None, Some("PARSE_ERROR"), None, None, None)
  {
    r := R.PARSE_ERROR;
    assert NulFree("PARSE_ERROR");
    ReplyLine(st, fd, r);
  }

  /** A request that can go to a controller goes, unchanged, to the connection that has its device, and waits under its
      client, key, type and time; if no slot is free, or it cannot be printed or written, nothing is sent, nothing waits
      and its sender's connection is closed. */
  lemma RequestSays(st: State, fd: int, line: string, m: Message, now: int, wr: bool)
    requires Parse(line) == Some(m) && Routable(st, m)
    ensures var o := Step(st, LineIn(fd, line, now, wr));
            var k := FirstFree(st.slots);
            if k < |st.slots| && wr && |Render(m)| + 1 <= 512 then
              && o.ret >= 0 && o.sent == [Packet(Owner(st, m.dev.value), Render(m))]
              && o.st == st.(slots := st.slots[k := Some(Pending(fd, m.seqNo.value, m.dev.value, m.typ, false, now))])
            else o.ret < 0 && o.sent == [] && o.st.slots == st.slots
  {
    ForwardSays(st, fd, m, now, wr);
    var o := HandleMessage(st, fd, Some(m), now, wr);
    assert Detached(o.st, fd).slots == o.st.slots;
  }

  lemma ForwardSays(st: State, fd: int, m: Message, now: int, wr: bool)
    requires Routable(st, m)
    ensures var o := HandleMessage(st, fd, Some(m), now, wr);
            var k := FirstFree(st.slots);
            if k < |st.slots| && wr && |Render(m)| + 1 <= 512 then
              && o.ret >= 0 && o.sent == [Packet(Owner(st, m.dev.value), Render(m))]
              && o.st == st.(slots := st.slots[k := Some(Pending(fd, m.seqNo.value, m.dev.value, m.typ, false, now))])
            else o.ret < 0 && o.sent == [] && o.st.slots == st.slots
  {
    assert R.Route(m, st.pmcFd, st.tmcFd) == R.Forward;
    assert HandleMessage(st, fd, Some(m), now, wr) == Routing(st, fd, m, now, wr);
  }

  // ----- the periodic tick

  predicate RefreshOn(x: ModuleInfo, x': ModuleInfo, now: int) {
    x' == x.(healthy := x.registered && x.lastUpdateMs > 0 && now - x.lastUpdateMs <= 3000)
  }

  /** Every tick decides anew who is healthy: a registered module heard of no more than 3 s ago. Without a PMC it does
      nothing else. */
  lemma TickSays(st: State, now: int, wr: bool)
    ensures var st' := Step(st, SchedulerIn(now, wr)).st;
            && RefreshOn(st.modules.preclean, st'.modules.preclean, now)
            && RefreshOn(st.modules.deposition, st'.modules.deposition, now)
            && RefreshOn(st.modules.tmc, st'.modules.tmc, now)
            && (st.pmcFd < 0 ==> Step(st, SchedulerIn(now, wr)).sent == [] && st' == st.(modules := st'.modules))
  {
  }

  /** A START that is due is this line, under the next sequence number. */
  lemma StartSays(st: State, now: int, dev: u32)
    requires |st.slots| == SLOTS && st.pmcFd >= 0
    requires var ms := RefreshedAll(st.modules, now);
             S.StartOf(st.job, AnyLive(st.slots), ms.preclean, ms.deposition) == Some(dev)
    ensures var o := Step(st, SchedulerIn(now, true));
            && o.sent == [Packet(st.pmcFd, Render(Message(Req, Start, Some(dev), Some(st.nextSeq), None, None, None, None, None, None, None)))]
            && o.st.nextSeq as int == (st.nextSeq as int + 1) % 0x1_0000_0000
  {
    SchedulerSends(st, now, true);
  }
}
