/** equipmentd as a step machine: a line arrives, the scheduler ticks, timeouts are swept. */
module Daemon {
  import opened Wrappers
  import opened Ints
  import opened Messages
  import opened Codec
  import opened CodecBuffers
  import opened Tracker
  import opened Registry
  import opened Scheduler
  import opened Router

  const WBUF := 512
  const SCHED_WBUF := 256
  const FIRST_SEQ: u32 := 1000

  datatype State = State(
    pmcFd: int, tmcFd: int, slots: seq<Slot>, nextSeq: u32, job: JobState, modules: Modules)

  /** Where the entries of the pending table came from and went to. */
  datatype Ledger = Ledger(
    taken: multiset<Pending>, consumed: multiset<Pending>, swept: multiset<Pending>,
    rolledBack: multiset<Pending>, relayed: multiset<Pending>)

  datatype Outcome = Outcome(st: State, ret: int, sent: seq<Packet>, ledger: Ledger)

  const NO_ENTRIES := Ledger(multiset{}, multiset{}, multiset{}, multiset{}, multiset{})

  const INIT := State(-1, -1, EmptyTable(), FIRST_SEQ, Idle, Modules(UNSEEN, UNSEEN, UNSEEN))

  function Quiet(st: State, ret: int): Outcome {
    Outcome(st, ret, [], NO_ENTRIES)
  }

  predicate IsController(st: State, fd: int) {
    fd == st.pmcFd || fd == st.tmcFd
  }

  // ----- the effect of one parsed line

  /** Format and write to `fd`: -1 when either fails. */
  function Respond(st: State, fd: int, m: Message, wr: bool): Outcome {
    if Format(m, WBUF).None? || !wr then Quiet(st, -1)
    else Outcome(st, 1, [Packet(fd, Format(m, WBUF).value)], NO_ENTRIES)
  }

  predicate IsAttach(m: Message) {
    m.role == Req && m.typ == Register && (m.dev.None? || m.dev.value == 100)
  }

  function Attached(st: State, fd: int, m: Message): State {
    if m.dev == Some(100) then st.(tmcFd := fd) else st.(pmcFd := fd)
  }

  /** The slot a controller's response belongs to; |slots| if there is none. */
  function AnsweredSlot(st: State, fd: int, m: Message): nat {
    if IsController(st, fd) && m.role == Resp && m.seqNo.Some? && m.dev.Some?
    then FirstMatch(st.slots, m.seqNo.value, m.dev.value)
    else |st.slots|
  }

  predicate Acked(m: Message) {
    m.typ != Error && m.ok == Some(1)
  }

  function SettledJob(job: JobState, p: Pending, m: Message): JobState {
    if !Acked(m) then job
    else match p.typ case Stop => Stopped case Reset => Idle case Fault => Failed case _ => job
  }

  function SettledModules(modules: Modules, p: Pending, m: Message): Modules {
    if Acked(m) && p.typ == Reset then ClearedFault(modules, p.dev) else modules
  }

  /** The job and latch updates of an acknowledged command, and the slot's release. */
  function Settled(st: State, i: nat, m: Message): State
    requires i < |st.slots| && st.slots[i].Some?
  {
    var p := st.slots[i].value;
    st.(slots := st.slots[i := None], job := SettledJob(st.job, p, m), modules := SettledModules(st.modules, p, m))
  }

  function Answer(st: State, i: nat, m: Message, wr: bool): Outcome
    requires i < |st.slots| && st.slots[i].Some?
  {
    var p := st.slots[i].value;
    if p.clientFd < 0 then
      Outcome(Settled(st, i, m), 1, [], NO_ENTRIES.(consumed := multiset{p}))
    else if Format(m, WBUF).None? || !wr then Quiet(st, -1)
    else
      Outcome(Settled(st, i, m), 1, [Packet(p.clientFd, Format(m, WBUF).value)],
              NO_ENTRIES.(consumed := multiset{p}, relayed := multiset{p}))
  }

  /** Take a free slot for p and write m to `fd`; the slot is given back when format or write fails. */
  function Track(st: State, p: Pending, fd: int, m: Message, cap: nat, wr: bool, full: int, ok: int): Outcome {
    var k := FirstFree(st.slots);
    if k == |st.slots| then Quiet(st, full)
    else if Format(m, cap).None? || !wr then
      Outcome(st, full, [], NO_ENTRIES.(taken := multiset{p}, rolledBack := multiset{p}))
    else
      Outcome(st.(slots := st.slots[k := Some(p)]), ok, [Packet(fd, Format(m, cap).value)],
              NO_ENTRIES.(taken := multiset{p}))
  }

  function ClientPending(fd: int, m: Message, now: int): Pending
    requires m.seqNo.Some? && m.dev.Some?
  {
    Pending(fd, m.seqNo.value, m.dev.value, m.typ, false, now)
  }

  /** handle_one_line on the outcome of line_parse. */
  function HandleMessage(st: State, fd: int, parsed: Option<Message>, now: int, wr: bool): Outcome {
    match parsed
    case None => Respond(st, fd, PARSE_ERROR, wr)
    case Some(m) =>
      if IsAttach(m) then
        Respond(Attached(st, fd, m), fd, OkReply(m), wr)
      else if AnsweredSlot(st, fd, m) < |st.slots| then
        Answer(st, AnsweredSlot(st, fd, m), m, wr)
      else Routing(st, fd, m, now, wr)
  }

  /** The part of handle_one_line that starts at router_handle. */
  function Routing(st: State, fd: int, m: Message, now: int, wr: bool): Outcome {
    match Route(m, st.pmcFd, st.tmcFd)
    case Nothing => Quiet(if m.role == Evt then st.(modules := EventEffect(st.modules, m, now)) else st, 0)
    case Reply(out) => Respond(st, fd, out, wr)
    case Forward =>
      Track(st, ClientPending(fd, m, now), TargetFd(st.pmcFd, st.tmcFd, m.dev.value), m, WBUF, wr, -1, 0)
  }

  // ----- the periodic steps

  function StartMessage(dev: u32, seqNo: u32): Message {
    Blank(Req, Start).(dev := Some(dev), seqNo := Some(seqNo))
  }

  /** run_scheduler. */
  function Schedule(st: State, now: int, wr: bool): Outcome {
    var ms := RefreshedAll(st.modules, now);
    var st1 := st.(modules := ms);
    if st.pmcFd < 0 then Quiet(st1, 0)
    else
      var pending := AnyLive(st.slots);
      var job := Next(st.job, pending, ms.preclean, ms.deposition);
      match StartOf(st.job, pending, ms.preclean, ms.deposition)
      case None => Quiet(st1.(job := job), 0)
      case Some(dev) =>
        var st2 := st1.(job := job, nextSeq := ToU32(st.nextSeq as int + 1));
        Track(st2, Pending(-1, st.nextSeq, dev, Start, true, now), st.pmcFd,
              StartMessage(dev, st.nextSeq), SCHED_WBUF, wr, 0, 0)
  }

  function Sweep(st: State, now: int): Outcome {
    Outcome(st.(slots := Swept(st.slots, now)), 0, [], NO_ENTRIES.(swept := Live(Dropped(st.slots, now))))
  }

  /** A connection is closed; a controller that goes is forgotten. */
  function Detached(st: State, fd: int): State {
    var st1 := if fd == st.pmcFd then st.(pmcFd := -1) else st;
    if fd == st.tmcFd then st1.(tmcFd := -1) else st1
  }

  datatype Input =
    | LineIn(fd: int, line: string, now: int, wr: bool)
    | SchedulerIn(now: int, wr: bool)
    | SweepIn(now: int)
    | GoneIn(fd: int)    // the peer closed, or read failed
    | DroppedIn(fd: int) // closed by the idle scan or after a buffer overflow

  /** One step of the daemon; a line whose handling fails closes the connection it came from. */
  function Step(st: State, e: Input): Outcome {
    match e
    case LineIn(fd, line, now, wr) =>
      var o := HandleMessage(st, fd, Parse(line), now, wr);
      if o.ret < 0 then o.(st := Detached(o.st, fd)) else o
    case SchedulerIn(now, wr) => Schedule(st, now, wr)
    case SweepIn(now) => Sweep(st, now)
    case GoneIn(fd) => Quiet(Detached(st, fd), 0)
    case DroppedIn(fd) => Quiet(st, 0) // pmc_fd and tmc_fd are not reset
  }

  // ----- app_ctx_t

  class App {
    var pmcFd: int
    var tmcFd: int
    var nextSeq: u32
    var job: JobState
    const tracker: RequestTracker
    const registry: ModuleRegistry
    var outbox: seq<Packet>

    ghost predicate Valid()
      reads this
    {
      tracker.Valid()
    }

    ghost function View(): State
      reads this, tracker, tracker.items, registry
    {
      State(pmcFd, tmcFd, tracker.Slots(), nextSeq, job, registry.View())
    }

    constructor ()
      ensures Valid() && View() == INIT && outbox == []
      ensures fresh(tracker) && fresh(tracker.items) && fresh(registry)
    {
      tracker := new RequestTracker();
      registry := new ModuleRegistry();
      pmcFd, tmcFd, nextSeq, job, outbox := -1, -1, FIRST_SEQ, Idle, [];
    }

    /** line_format into wbuf, then write(2); wr says whether the write succeeds. */
    method Send(fd: int, m: Message, wbuf: array<char>, wr: bool) returns (ok: bool)
      modifies this`outbox, wbuf
      ensures ok <==> Format(m, wbuf.Length).Some? && wr
      ensures outbox == old(outbox) + (if ok then [Packet(fd, Format(m, wbuf.Length).value)] else [])
    {
      var wn := LineFormat(m, wbuf);
      if wn < 0 || !wr {
        return false;
      }
      outbox := outbox + [Packet(fd, wbuf[..wn])];
      ok := true;
    }

    /** An acknowledged STOP, RESET or FAULT moves the job; a RESET also clears the device's fault latch. */
    method Settle(p: Pending, m: Message)
      modifies this`job, registry
      ensures job == SettledJob(old(job), p, m) && registry.View() == SettledModules(old(registry.View()), p, m)
      ensures m.typ == Error || m.ok != Some(1) ==> job == old(job) && registry.View() == old(registry.View())
      ensures m.typ != Error && m.ok == Some(1) ==>
                job == match p.typ case Stop => Stopped case Reset => Idle case Fault => Failed case _ => old(job)
      ensures m.typ != Error && m.ok == Some(1) && p.typ == Reset ==>
                var ms, ms' := old(registry.View()), registry.View();
                && ms'.preclean == (if p.dev == 1 then ms.preclean.(faultLatched := false) else ms.preclean)
                && ms'.deposition == (if p.dev == 2 then ms.deposition.(faultLatched := false) else ms.deposition)
                && ms'.tmc == (if p.dev == 100 then ms.tmc.(faultLatched := false) else ms.tmc)
    {
      if m.typ != Error && m.ok == Some(1) {
        match p.typ {
          case Stop =>
            job := Stopped;
          case Reset =>
            job := Idle;
            registry.ClearFault(p.dev);
          case Fault =>
            job := Failed;
          case _ =>
        }
      }
    }

    /** The response branch of handle_one_line, for a live slot i. */
    method AnswerSlot(i: nat, m: Message, wbuf: array<char>, wr: bool) returns (ret: int)
      requires Valid() && i < SLOTS && tracker.items[i].Some?
      requires wbuf.Length == WBUF
      modifies this`job, this`outbox, tracker.items, registry, wbuf
      ensures Valid()
      ensures var o := Answer(old(View()), i, m, wr);
              View() == o.st && ret == o.ret && outbox == old(outbox) + o.sent
    {
      var p := tracker.items[i].value;
      if p.clientFd >= 0 {
        var ok := Send(p.clientFd, m, wbuf, wr);
        if !ok {
          return -1;
        }
      }
      Settle(p, m);
      tracker.Remove(i);
      ret := 1;
    }

    /** Allocate a slot, fill it, format and write; undo the slot on failure. */
    method TrackAndSend(p: Pending, fd: int, m: Message, wbuf: array<char>, wr: bool) returns (full: bool, ok: bool)
      requires Valid()
      modifies this`outbox, tracker.items, wbuf
      ensures Valid()
      ensures var o := Track(old(View()), p, fd, m, wbuf.Length, wr, -1, 0);
              View() == o.st && outbox == old(outbox) + o.sent && (ok <==> o.ret == 0)
    {
      full, ok := false, false;
      ghost var s := tracker.Slots();
      var i := tracker.Alloc();
      if i < 0 {
        full := true;
        return;
      }
      tracker.Fill(i, p);
      assert tracker.Slots() == s[i := Some(p)];
      ok := Send(fd, m, wbuf, wr);
      if !ok {
        tracker.Remove(i);
        assert tracker.Slots() == s;
      }
    }

    /** From router_handle on. */
    method RouteMessage(fd: int, m: Message, now: int, wbuf: array<char>, wr: bool) returns (ret: int)
      requires Valid() && wbuf.Length == WBUF
      modifies this`outbox, tracker.items, registry, wbuf
      ensures Valid()
      ensures var o := Routing(old(View()), fd, m, now, wr);
              View() == o.st && ret == o.ret && outbox == old(outbox) + o.sent
    {
      var r := RouterHandle(registry, m, pmcFd, tmcFd, now);
      var ok: bool;
      match r {
        case Nothing =>
          ret := 0;
        case Forward =>
          var full;
          full, ok := TrackAndSend(ClientPending(fd, m, now), TargetFd(pmcFd, tmcFd, m.dev.value), m, wbuf, wr);
          ret := if ok then 0 else -1;
        case Reply(out) =>
          ok := Send(fd, out, wbuf, wr);
          ret := if ok then 1 else -1;
      }
    }

    method Attach(fd: int, m: Message, wbuf: array<char>, wr: bool) returns (ret: int)
      requires Valid() && wbuf.Length == WBUF
      modifies this`pmcFd, this`tmcFd, this`outbox, wbuf
      ensures Valid()
      ensures var o := Respond(Attached(old(View()), fd, m), fd, OkReply(m), wr);
              View() == o.st && ret == o.ret && outbox == old(outbox) + o.sent
    {
      if m.dev == Some(100) {
        tmcFd := fd;
      } else {
        pmcFd := fd;
      }
      var ok := Send(fd, OkReply(m), wbuf, wr);
      ret := if ok then 1 else -1;
    }

    method HandleOneLine(fd: int, line: string, now: int, wbuf: array<char>, wr: bool) returns (ret: int)
      requires Valid() && wbuf.Length == WBUF
      modifies this, tracker.items, registry, wbuf
      ensures Valid()
      ensures var o := HandleMessage(old(View()), fd, Parse(line), now, wr);
              View() == o.st && ret == o.ret && outbox == old(outbox) + o.sent
    {
      var parsed := LineParse(line);
      if parsed.None? {
        var ok := Send(fd, PARSE_ERROR, wbuf, wr);
        return if ok then 1 else -1;
      }
      var m := parsed.value;
      if m.role == Req && m.typ == Register {
        var isTmc := m.dev.Some? && m.dev.value == 100;
        if m.dev.None? || isTmc {
          ret := Attach(fd, m, wbuf, wr);
          return;
        }
      }
      var i := -1;
      if (fd == pmcFd || fd == tmcFd) && m.role == Resp && m.seqNo.Some? && m.dev.Some? {
        i := tracker.Find(m.seqNo.value, m.dev.value);
      }
      if i >= 0 {
        ret := AnswerSlot(i, m, wbuf, wr);
      } else {
        ret := RouteMessage(fd, m, now, wbuf, wr);
      }
    }

    method RunScheduler(now: int, wbuf: array<char>, wr: bool)
      requires Valid() && wbuf.Length == SCHED_WBUF
      modifies this, tracker.items, registry, wbuf
      ensures Valid()
      ensures var o := Schedule(old(View()), now, wr);
              View() == o.st && outbox == old(outbox) + o.sent
    {
      registry.RefreshHealth(now);
      if pmcFd < 0 {
        return;
      }
      var pending := tracker.HasPending();
      var dev, seqNo;
      nextSeq, job, dev, seqNo := SchedulerTick(registry.preclean, registry.deposition, pending, nextSeq, job);
      if dev.None? {
        return;
      }
      var p := Pending(-1, seqNo, dev.value, Start, true, now);
      var full, ok := TrackAndSend(p, pmcFd, StartMessage(dev.value, seqNo), wbuf, wr);
    }

    method SweepTimeouts(now: int)
      requires Valid()
      modifies tracker.items
      ensures Valid() && View() == Sweep(old(View()), now).st
    {
      tracker.SweepTimeouts(now);
    }

    method Detach(fd: int)
      modifies this`pmcFd, this`tmcFd
      ensures View() == Detached(old(View()), fd)
    {
      var isPmc, isTmc := fd == pmcFd, fd == tmcFd;
      if isPmc {
        pmcFd := -1;
      }
      if isTmc {
        tmcFd := -1;
      }
    }

    /** One step of the event loop. */
    method Do(e: Input, wbuf: array<char>, swbuf: array<char>)
      requires Valid() && wbuf.Length == WBUF && swbuf.Length == SCHED_WBUF
      modifies this, tracker.items, registry, wbuf, swbuf
      ensures Valid()
      ensures var o := Step(old(View()), e);
              View() == o.st && outbox == old(outbox) + o.sent
    {
      match e {
        case LineIn(fd, line, now, wr) =>
          var ret := HandleOneLine(fd, line, now, wbuf, wr);
          if ret < 0 {
            Detach(fd);
          }
        case SchedulerIn(now, wr) =>
          RunScheduler(now, swbuf, wr);
        case SweepIn(now) =>
          SweepTimeouts(now);
        case GoneIn(fd) =>
          Detach(fd);
        case DroppedIn(fd) =>
      }
    }
  }
}
