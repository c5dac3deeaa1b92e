/** What every run of equipmentd keeps. */
module DaemonRuns {
  import opened Wrappers
  import opened Ints
  import opened Messages
  import opened Codec
  import opened Tracker
  import opened Registry
  import opened Scheduler
  import opened Router
  import opened Daemon

  function Sum(a: Ledger, b: Ledger): Ledger {
    Ledger(a.taken + b.taken, a.consumed + b.consumed, a.swept + b.swept,
           a.rolledBack + b.rolledBack, a.relayed + b.relayed)
  }

  function StateAfter(st: State, es: seq<Input>): State
    decreases |es|
  {
    if es == [] then st else StateAfter(Step(st, es[0]).st, es[1..])
  }

  function LedgerOf(st: State, es: seq<Input>): Ledger
    decreases |es|
  {
    if es == [] then NO_ENTRIES else Sum(Step(st, es[0]).ledger, LedgerOf(Step(st, es[0]).st, es[1..]))
  }

  lemma {:induction false} StateAfterConcat(st: State, a: seq<Input>, b: seq<Input>)
    ensures StateAfter(st, a + b) == StateAfter(StateAfter(st, a), b)
    decreases |a|
  {
    if a == [] {
      assert a + b == b;
    } else {
      assert (a + b)[1..] == a[1..] + b;
      StateAfterConcat(Step(st, a[0]).st, a[1..], b);
    }
  }

  lemma StateAfterOne(st: State, e: Input)
    ensures StateAfter(st, [e]) == Step(st, e).st
  {
    assert [e][1..] == [];
  }

  lemma AfterSnoc(st: State, es: seq<Input>, e: Input)
    ensures StateAfter(st, es + [e]) == Step(StateAfter(st, es), e).st
  {
    StateAfterConcat(st, es, [e]);
    StateAfterOne(StateAfter(st, es), e);
  }

  // ----- what a step does to the table

  datatype TableMove = Keep | Release(i: nat) | Insert(p: Pending) | Undo(p: Pending) | Clear(now: int)

  predicate Effect(s: seq<Slot>, mv: TableMove, s': seq<Slot>, l: Ledger) {
    match mv
    case Keep => s' == s && l == NO_ENTRIES
    case Release(i) =>
      && i < |s| && s[i].Some? && s' == s[i := None]
      && l == NO_ENTRIES.(consumed := multiset{s[i].value}, relayed := l.relayed)
      && l.relayed <= l.consumed
    case Insert(p) =>
      && FirstFree(s) < |s| && s' == s[FirstFree(s) := Some(p)]
      && l == NO_ENTRIES.(taken := multiset{p})
    case Undo(p) => s' == s && l == NO_ENTRIES.(taken := multiset{p}, rolledBack := multiset{p})
    case Clear(now) => s' == Swept(s, now) && l == NO_ENTRIES.(swept := Live(Dropped(s, now)))
  }

  function TrackMove(s: seq<Slot>, p: Pending, m: Message, cap: nat, wr: bool): TableMove {
    if FirstFree(s) == |s| then Keep
    else if Format(m, cap).None? || !wr then Undo(p)
    else Insert(p)
  }

  function MessageMove(st: State, fd: int, m: Message, now: int, wr: bool): TableMove {
    if IsAttach(m) then Keep
    else
      var i := AnsweredSlot(st, fd, m);
      if i < |st.slots| then
        if st.slots[i].value.clientFd >= 0 && (Format(m, WBUF).None? || !wr) then Keep else Release(i)
      else if Route(m, st.pmcFd, st.tmcFd) == Forward then
        TrackMove(st.slots, ClientPending(fd, m, now), m, WBUF, wr)
      else Keep
  }

  function ScheduleMove(st: State, now: int, wr: bool): TableMove {
    var ms := RefreshedAll(st.modules, now);
    if st.pmcFd < 0 then Keep
    else
      match StartOf(st.job, AnyLive(st.slots), ms.preclean, ms.deposition)
      case None => Keep
      case Some(dev) =>
        TrackMove(st.slots, Pending(-1, st.nextSeq, dev, Start, true, now), StartMessage(dev, st.nextSeq), SCHED_WBUF, wr)
  }

  function MoveOf(st: State, e: Input): TableMove {
    match e
    case LineIn(fd, line, now, wr) =>
      (match Parse(line) case None => Keep case Some(m) => MessageMove(st, fd, m, now, wr))
    case SchedulerIn(now, wr) => ScheduleMove(st, now, wr)
    case SweepIn(now) => Clear(now)
    case _ => Keep
  }

  lemma TrackMoves(st: State, p: Pending, fd: int, m: Message, cap: nat, wr: bool, full: int, ok: int)
    ensures var o := Track(st, p, fd, m, cap, wr, full, ok);
            Effect(st.slots, TrackMove(st.slots, p, m, cap, wr), o.st.slots, o.ledger)
  {
  }

  lemma AnswerMoves(st: State, i: nat, m: Message, wr: bool)
    requires i < |st.slots| && st.slots[i].Some?
    ensures var o := Answer(st, i, m, wr);
            var mv := if st.slots[i].value.clientFd >= 0 && (Format(m, WBUF).None? || !wr) then Keep else Release(i);
            Effect(st.slots, mv, o.st.slots, o.ledger)
  {
  }

  lemma MessageMoves(st: State, fd: int, m: Message, now: int, wr: bool)
    ensures var o := HandleMessage(st, fd, Some(m), now, wr);
            Effect(st.slots, MessageMove(st, fd, m, now, wr), o.st.slots, o.ledger)
  {
    var i := AnsweredSlot(st, fd, m);
    if IsAttach(m) {
    } else if i < |st.slots| {
      AnswerMoves(st, i, m, wr);
    } else if Route(m, st.pmcFd, st.tmcFd) == Forward {
      TrackMoves(st, ClientPending(fd, m, now), TargetFd(st.pmcFd, st.tmcFd, m.dev.value), m, WBUF, wr, -1, 0);
    }
  }

  lemma ScheduleMoves(st: State, now: int, wr: bool)
    ensures var o := Schedule(st, now, wr);
            Effect(st.slots, ScheduleMove(st, now, wr), o.st.slots, o.ledger)
  {
    var ms := RefreshedAll(st.modules, now);
    var pending := AnyLive(st.slots);
    var start := StartOf(st.job, pending, ms.preclean, ms.deposition);
    if st.pmcFd >= 0 && start.Some? {
      var st2 := st.(modules := ms, job := Next(st.job, pending, ms.preclean, ms.deposition),
                     nextSeq := ToU32(st.nextSeq as int + 1));
      TrackMoves(st2, Pending(-1, st.nextSeq, start.value, Start, true, now), st.pmcFd,
                 StartMessage(start.value, st.nextSeq), SCHED_WBUF, wr, 0, 0);
    }
  }

  lemma LineMoves(st: State, e: Input, parsed: Option<Message>)
    requires e.LineIn? && parsed == Parse(e.line)
    ensures Effect(st.slots, MoveOf(st, e), Step(st, e).st.slots, Step(st, e).ledger)
  {
    var o := HandleMessage(st, e.fd, parsed, e.now, e.wr);
    assert Detached(o.st, e.fd).slots == o.st.slots;
    if parsed.Some? {
      MessageMoves(st, e.fd, parsed.value, e.now, e.wr);
    }
  }

  /** Every step keeps the table, releases one entry, takes one slot, takes and gives it back, or sweeps. */
  lemma StepMoves(st: State, e: Input)
    ensures Effect(st.slots, MoveOf(st, e), Step(st, e).st.slots, Step(st, e).ledger)
  {
    match e
    case LineIn(_, _, _, _) => LineMoves(st, e, Parse(e.line));
    case SchedulerIn(now, wr) => ScheduleMoves(st, now, wr);
    case _ =>
  }

  // ----- conservation of pending requests

  predicate Balanced(before: multiset<Pending>, l: Ledger, after: multiset<Pending>) {
    && after + l.consumed + l.swept + l.rolledBack == before + l.taken
    && l.relayed <= l.consumed
  }

  lemma BalancedRelease(s: seq<Slot>, i: nat, l: Ledger)
    requires i < |s| && Effect(s, Release(i), s[i := None], l)
    ensures Balanced(Live(s), l, Live(s[i := None]))
  {
    LiveUpdate(s, i, None);
  }

  lemma BalancedInsert(s: seq<Slot>, p: Pending)
    requires FirstFree(s) < |s|
    ensures Balanced(Live(s), NO_ENTRIES.(taken := multiset{p}), Live(s[FirstFree(s) := Some(p)]))
  {
    LiveUpdate(s, FirstFree(s), Some(p));
  }

  lemma BalancedMove(s: seq<Slot>, mv: TableMove, s': seq<Slot>, l: Ledger)
    requires Effect(s, mv, s', l)
    ensures |s'| == |s| && Balanced(Live(s), l, Live(s'))
  {
    match mv
    case Release(i) => BalancedRelease(s, i, l);
    case Insert(p) => BalancedInsert(s, p);
    case Clear(now) => LiveSwept(s, now);
    case _ =>
  }

  lemma BalancedStep(st: State, e: Input)
    ensures |Step(st, e).st.slots| == |st.slots|
    ensures Balanced(Live(st.slots), Step(st, e).ledger, Live(Step(st, e).st.slots))
  {
    StepMoves(st, e);
    BalancedMove(st.slots, MoveOf(st, e), Step(st, e).st.slots, Step(st, e).ledger);
  }

  lemma BalancedChain(a: multiset<Pending>, l: Ledger, b: multiset<Pending>, m: Ledger, c: multiset<Pending>)
    requires Balanced(a, l, b) && Balanced(b, m, c)
    ensures Balanced(a, Sum(l, m), c)
  {
    forall p: Pending
      ensures (c + (l.consumed + m.consumed) + (l.swept + m.swept) + (l.rolledBack + m.rolledBack))[p]
           == (a + (l.taken + m.taken))[p]
      ensures (l.relayed + m.relayed)[p] <= (l.consumed + m.consumed)[p]
    {
      assert (b + l.consumed + l.swept + l.rolledBack)[p] == (a + l.taken)[p];
      assert (c + m.consumed + m.swept + m.rolledBack)[p] == (b + m.taken)[p];
    }
  }

  /** In every run: requests taken = answered + timed out + rolled back + still live, entry by entry;
      and only answered requests are relayed. */
  lemma {:induction false} PendingConserved(st: State, es: seq<Input>)
    ensures |StateAfter(st, es).slots| == |st.slots|
    ensures Balanced(Live(st.slots), LedgerOf(st, es), Live(StateAfter(st, es).slots))
    decreases |es|
  {
    if es != [] {
      BalancedStep(st, es[0]);
      var st' := Step(st, es[0]).st;
      PendingConserved(st', es[1..]);
      BalancedChain(Live(st.slots), Step(st, es[0]).ledger, Live(st'.slots),
                    LedgerOf(st', es[1..]), Live(StateAfter(st', es[1..]).slots));
    }
  }

  // ----- what the entries mean

  lemma MessageForwards(st: State, fd: int, m: Message, now: int, wr: bool, p: Pending)
    requires p in HandleMessage(st, fd, Some(m), now, wr).ledger.taken
    ensures var o := HandleMessage(st, fd, Some(m), now, wr);
            && m.role == Req && IsDeviceCommand(m.typ) && m.seqNo.Some? && m.dev.Some?
            && p == ClientPending(fd, m, now)
            && (p in o.ledger.rolledBack || o.sent == [Packet(TargetFd(st.pmcFd, st.tmcFd, p.dev), Render(m))])
  {
    MessageMoves(st, fd, m, now, wr);
  }

  /** A request line that is accepted is tracked under its own connection and key, and its own text is
      what goes to the controller of its device. */
  lemma ForwardMeans(st: State, e: Input, p: Pending)
    requires e.LineIn? && p in Step(st, e).ledger.taken
    ensures var o := Step(st, e);
            && Parse(e.line).Some?
            && var m := Parse(e.line).value;
            && m.role == Req && IsDeviceCommand(m.typ) && m.seqNo.Some? && m.dev.Some?
            && p == ClientPending(e.fd, m, e.now)
            && (p in o.ledger.rolledBack || o.sent == [Packet(TargetFd(st.pmcFd, st.tmcFd, p.dev), Render(m))])
  {
    StepMoves(st, e);
    MessageForwards(st, e.fd, Parse(e.line).value, e.now, e.wr, p);
  }

  /** A response is relayed only from a controller, to the client of a live entry with its key, unchanged. */
  lemma RelayMeans(st: State, e: Input)
    requires e.LineIn? && Parse(e.line).Some? && Parse(e.line).value.role == Resp
    ensures var o := Step(st, e);
            var m := Parse(e.line).value;
            o.sent != [] ==>
              && IsController(st, e.fd)
              && exists p | p in o.ledger.relayed ::
                   && Some(p) in st.slots
                   && m.seqNo == Some(p.seqNo) && m.dev == Some(p.dev)
                   && o.sent == [Packet(p.clientFd, Render(m))]
  {
    var o := Step(st, e);
    var m := Parse(e.line).value;
    if o.sent != [] {
      var i := AnsweredSlot(st, e.fd, m);
      var p := st.slots[i].value;
      assert st.slots[i] == Some(p);
      assert p in o.ledger.relayed;
    }
  }

  /** A response without a live entry for its key goes nowhere and changes nothing. */
  lemma StrayResponse(st: State, e: Input)
    requires e.LineIn? && Parse(e.line).Some?
    requires var m := Parse(e.line).value;
             m.role == Resp && forall s | s in st.slots :: s.Some? ==> !(m.seqNo == Some(s.value.seqNo) && m.dev == Some(s.value.dev))
    ensures Step(st, e) == Quiet(st, 0)
  {
    var m := Parse(e.line).value;
    if m.seqNo.Some? && m.dev.Some? {
      assert forall i | 0 <= i < |st.slots| :: st.slots[i] in st.slots;
    }
  }

  /** A response for a client's entry frees the entry and leaves the controller its link if and only if it can be
      printed again into 512 bytes and the write to the client succeeds. Otherwise the entry stays live, nothing is
      sent, and the controller, not the client, loses its link. */
  lemma FailedRelayDropsController(st: State, e: Input)
    requires e.LineIn? && Parse(e.line).Some? && e.fd >= 0
    requires var i := AnsweredSlot(st, e.fd, Parse(e.line).value); i < |st.slots| && st.slots[i].value.clientFd >= 0
    ensures var m := Parse(e.line).value;
            var i := AnsweredSlot(st, e.fd, m);
            var o := Step(st, e);
            var ok := e.wr && Format(m, WBUF).Some?;
            && |o.st.slots| == |st.slots| && IsController(st, e.fd)
            && (o.st.slots[i].None? <==> ok) && (IsController(o.st, e.fd) <==> ok)
            && (!ok ==> o.sent == [] && o.st == Detached(st, e.fd))
            && (ok ==> o.sent == [Packet(st.slots[i].value.clientFd, Render(m))])
  {
    RelayReturns(st, e.fd, Parse(e.line).value, e.now, e.wr);
  }

  lemma RelayReturns(st: State, fd: int, m: Message, now: int, wr: bool)
    requires var i := AnsweredSlot(st, fd, m); i < |st.slots| && st.slots[i].value.clientFd >= 0
    ensures HandleMessage(st, fd, Some(m), now, wr) == Answer(st, AnsweredSlot(st, fd, m), m, wr)
    ensures Answer(st, AnsweredSlot(st, fd, m), m, wr).ret == if wr && Format(m, WBUF).Some? then 1 else -1
  {
  }

  // ----- correlation per client and key

  /** Live entries of client c with the given key. */
  function Waiting(s: seq<Slot>, c: int, seqNo: u32, dev: u32): nat {
    if s == [] then 0
    else (if HasKey(s[0], seqNo, dev) && s[0].value.clientFd == c then 1 else 0) + Waiting(s[1..], c, seqNo, dev)
  }

  function Weight(p: Slot, c: int, seqNo: u32, dev: u32): nat {
    if HasKey(p, seqNo, dev) && p.value.clientFd == c then 1 else 0
  }

  lemma {:induction false} WaitingUpdate(s: seq<Slot>, i: nat, v: Slot, c: int, seqNo: u32, dev: u32)
    requires i < |s|
    ensures Waiting(s[i := v], c, seqNo, dev) + Weight(s[i], c, seqNo, dev)
         == Waiting(s, c, seqNo, dev) + Weight(v, c, seqNo, dev)
  {
    if i == 0 {
      assert s[i := v][1..] == s[1..];
    } else {
      assert s[i := v][1..] == s[1..][i - 1 := v];
      WaitingUpdate(s[1..], i - 1, v, c, seqNo, dev);
    }
  }

  lemma {:induction false} WaitingSwept(s: seq<Slot>, now: int, c: int, seqNo: u32, dev: u32)
    ensures Waiting(Swept(s, now), c, seqNo, dev) <= Waiting(s, c, seqNo, dev)
  {
    if s != [] {
      assert Swept(s, now)[1..] == Swept(s[1..], now);
      WaitingSwept(s[1..], now, c, seqNo, dev);
    }
  }

  /** The line of this step carries the key. */
  predicate CarriesKey(e: Input, role: Role, seqNo: u32, dev: u32) {
    e.LineIn? && Parse(e.line).Some? && Parse(e.line).value.role == role
    && Parse(e.line).value.seqNo == Some(seqNo) && Parse(e.line).value.dev == Some(dev)
  }

  /** Step e hands client c a response with the key. */
  predicate Answers(st: State, e: Input, c: int, seqNo: u32, dev: u32) {
    CarriesKey(e, Resp, seqNo, dev) && Step(st, e).sent != [] && Step(st, e).sent[0].fd == c
  }

  /** Step e accepts a request with the key from client c. */
  predicate Accepts(st: State, e: Input, c: int, seqNo: u32, dev: u32) {
    CarriesKey(e, Req, seqNo, dev) && e.fd == c
    && Route(Parse(e.line).value, st.pmcFd, st.tmcFd) == Forward && Step(st, e).ret >= 0
  }

  function AnswerCount(st: State, es: seq<Input>, c: int, seqNo: u32, dev: u32): nat
    decreases |es|
  {
    if es == [] then 0
    else (if Answers(st, es[0], c, seqNo, dev) then 1 else 0) + AnswerCount(Step(st, es[0]).st, es[1..], c, seqNo, dev)
  }

  function AcceptCount(st: State, es: seq<Input>, c: int, seqNo: u32, dev: u32): nat
    decreases |es|
  {
    if es == [] then 0
    else (if Accepts(st, es[0], c, seqNo, dev) then 1 else 0) + AcceptCount(Step(st, es[0]).st, es[1..], c, seqNo, dev)
  }

  /** Weighing a move: what it removes from and adds to the waiting entries. */
  lemma WaitingMove(s: seq<Slot>, mv: TableMove, s': seq<Slot>, l: Ledger, c: int, seqNo: u32, dev: u32)
    requires Effect(s, mv, s', l)
    ensures var w, w' := Waiting(s, c, seqNo, dev), Waiting(s', c, seqNo, dev);
            && (mv.Release? ==> w' + Weight(s[mv.i], c, seqNo, dev) == w)
            && (mv.Insert? ==> w' == w + Weight(Some(mv.p), c, seqNo, dev))
            && (!mv.Insert? ==> w' <= w)
  {
    match mv
    case Release(i) => WaitingUpdate(s, i, None, c, seqNo, dev);
    case Insert(p) => WaitingUpdate(s, FirstFree(s), Some(p), c, seqNo, dev);
    case Clear(now) => WaitingSwept(s, now, c, seqNo, dev);
    case _ =>
  }

  lemma AnsweredMove(st: State, fd: int, m: Message, now: int, wr: bool)
    requires m.role == Resp && HandleMessage(st, fd, Some(m), now, wr).sent != []
    ensures var mv := MessageMove(st, fd, m, now, wr);
            && mv.Release? && mv.i < |st.slots| && st.slots[mv.i].Some?
            && m.seqNo == Some(st.slots[mv.i].value.seqNo) && m.dev == Some(st.slots[mv.i].value.dev)
            && HandleMessage(st, fd, Some(m), now, wr).sent[0].fd == st.slots[mv.i].value.clientFd
  {
  }

  lemma InsertedMove(st: State, fd: int, m: Message, now: int, wr: bool)
    requires MessageMove(st, fd, m, now, wr).Insert?
    ensures m.role == Req && m.seqNo.Some? && m.dev.Some?
    ensures MessageMove(st, fd, m, now, wr).p == ClientPending(fd, m, now)
    ensures Route(m, st.pmcFd, st.tmcFd) == Forward && HandleMessage(st, fd, Some(m), now, wr).ret == 0
  {
  }

  lemma WaitingLine(st: State, e: Input, m: Message, c: int, seqNo: u32, dev: u32)
    requires e.LineIn? && Parse(e.line) == Some(m)
    ensures var mv := MoveOf(st, e);
            && (Answers(st, e, c, seqNo, dev) ==>
                  mv.Release? && mv.i < |st.slots| && Weight(st.slots[mv.i], c, seqNo, dev) == 1)
            && (mv.Insert? && Weight(Some(mv.p), c, seqNo, dev) == 1 ==> Accepts(st, e, c, seqNo, dev))
  {
    if Answers(st, e, c, seqNo, dev) {
      AnsweredMove(st, e.fd, m, e.now, e.wr);
    }
    if MoveOf(st, e).Insert? {
      InsertedMove(st, e.fd, m, e.now, e.wr);
    }
  }

  lemma WaitingStep(st: State, e: Input, c: int, seqNo: u32, dev: u32)
    requires c >= 0
    ensures (if Answers(st, e, c, seqNo, dev) then 1 else 0) + Waiting(Step(st, e).st.slots, c, seqNo, dev)
         <= (if Accepts(st, e, c, seqNo, dev) then 1 else 0) + Waiting(st.slots, c, seqNo, dev)
  {
    StepMoves(st, e);
    WaitingMove(st.slots, MoveOf(st, e), Step(st, e).st.slots, Step(st, e).ledger, c, seqNo, dev);
    if e.LineIn? {
      var parsed := Parse(e.line);
      if parsed.Some? {
        WaitingLine(st, e, parsed.value, c, seqNo, dev);
      }
    }
  }

  /** In every run and for every client and key: the responses handed to the client are no more than the
      requests with that key it sent and had accepted. Each relayed RESP answers one of them, at most once. */
  lemma {:induction false} EveryAnswerWasAsked(st: State, es: seq<Input>, c: int, seqNo: u32, dev: u32)
    requires c >= 0
    ensures AnswerCount(st, es, c, seqNo, dev) + Waiting(StateAfter(st, es).slots, c, seqNo, dev)
         <= AcceptCount(st, es, c, seqNo, dev) + Waiting(st.slots, c, seqNo, dev)
    decreases |es|
  {
    if es != [] {
      WaitingStep(st, es[0], c, seqNo, dev);
      EveryAnswerWasAsked(Step(st, es[0]).st, es[1..], c, seqNo, dev);
    }
  }

  // ----- unique keys

  predicate UniqueKeys(s: seq<Slot>) {
    forall i, j | 0 <= i < j < |s| && s[i].Some? && s[j].Some? ::
      s[i].value.seqNo != s[j].value.seqNo || s[i].value.dev != s[j].value.dev
  }

  /** The entry in slot i is found under its own key exactly when no earlier slot shares the key, whichever
      of the two requests came first; with unique live keys that is always so. */
  lemma FindIsExact(s: seq<Slot>, i: nat)
    requires i < |s| && s[i].Some?
    ensures FirstMatch(s, s[i].value.seqNo, s[i].value.dev) == i
            <==> forall j | 0 <= j < i :: !HasKey(s[j], s[i].value.seqNo, s[i].value.dev)
    ensures UniqueKeys(s) ==> FirstMatch(s, s[i].value.seqNo, s[i].value.dev) == i
  {
    var k := FirstMatch(s, s[i].value.seqNo, s[i].value.dev);
    assert HasKey(s[i], s[i].value.seqNo, s[i].value.dev);
  }

  lemma UniqueMove(s: seq<Slot>, mv: TableMove, s': seq<Slot>, l: Ledger)
    requires Effect(s, mv, s', l) && UniqueKeys(s)
    requires mv.Insert? ==> FirstMatch(s, mv.p.seqNo, mv.p.dev) == |s|
    ensures UniqueKeys(s')
  {
    if mv.Insert? {
      assert forall j | 0 <= j < |s| :: !HasKey(s[j], mv.p.seqNo, mv.p.dev);
    }
  }

  /** Live keys stay unique as long as no accepted request reuses a live key. */
  lemma UniqueKept(st: State, e: Input)
    requires UniqueKeys(st.slots)
    requires e.LineIn? && MoveOf(st, e).Insert? ==>
               FirstMatch(st.slots, MoveOf(st, e).p.seqNo, MoveOf(st, e).p.dev) == |st.slots|
    ensures UniqueKeys(Step(st, e).st.slots)
  {
    StepMoves(st, e);
    var mv := MoveOf(st, e);
    if e.SchedulerIn? && mv.Insert? {
      NothingLive(st, e.now, e.wr);
    }
    UniqueMove(st.slots, mv, Step(st, e).st.slots, Step(st, e).ledger);
  }

  lemma NothingLive(st: State, now: int, wr: bool)
    requires !ScheduleMove(st, now, wr).Keep?
    ensures !AnyLive(st.slots)
    ensures forall seqNo: u32, dev: u32 :: FirstMatch(st.slots, seqNo, dev) == |st.slots|
  {
  }

  // ----- age order

  /** Entries with the key lie in the table in the order they were created. */
  predicate AgeOrdered(s: seq<Slot>, seqNo: u32, dev: u32) {
    forall i, j | 0 <= i < j < |s| && HasKey(s[i], seqNo, dev) && HasKey(s[j], seqNo, dev) ::
      s[i].value.createdMs <= s[j].value.createdMs
  }

  /** No entry was created after `now`. */
  predicate NoneYounger(s: seq<Slot>, now: int) {
    forall i | 0 <= i < |s| && s[i].Some? :: s[i].value.createdMs <= now
  }

  /** Slot k holds the oldest request with its key. */
  predicate Oldest(s: seq<Slot>, k: nat, seqNo: u32, dev: u32) {
    k < |s| && HasKey(s[k], seqNo, dev)
    && forall j | 0 <= j < |s| && HasKey(s[j], seqNo, dev) :: s[k].value.createdMs <= s[j].value.createdMs
  }

  /** In a table that is age-ordered for the key a response goes to the oldest request with the key. */
  lemma OldestIsAnswered(s: seq<Slot>, seqNo: u32, dev: u32)
    requires AgeOrdered(s, seqNo, dev)
    ensures var k := FirstMatch(s, seqNo, dev); k < |s| ==> Oldest(s, k, seqNo, dev)
  {
    var k := FirstMatch(s, seqNo, dev);
    forall j | 0 <= j < |s| && k < |s| && HasKey(s[j], seqNo, dev)
      ensures s[k].value.createdMs <= s[j].value.createdMs
    {
      assert k <= j;
    }
  }

  /** An older live request with the key lies behind the slot the next request will take. */
  predicate Overtakes(s: seq<Slot>, seqNo: u32, dev: u32, now: int) {
    exists j | FirstFree(s) < j < |s| :: HasKey(s[j], seqNo, dev) && s[j].value.createdMs < now
  }

  /** Taking a request with the key keeps the age order exactly when it does not overtake. */
  lemma InsertKeepsAge(s: seq<Slot>, p: Pending)
    requires AgeOrdered(s, p.seqNo, p.dev) && NoneYounger(s, p.createdMs) && FirstFree(s) < |s|
    ensures AgeOrdered(s[FirstFree(s) := Some(p)], p.seqNo, p.dev) <==> !Overtakes(s, p.seqNo, p.dev, p.createdMs)
  {
    var f := FirstFree(s);
    var s' := s[f := Some(p)];
    if j :| f < j < |s| && HasKey(s[j], p.seqNo, p.dev) && s[j].value.createdMs < p.createdMs {
      assert HasKey(s'[f], p.seqNo, p.dev) && HasKey(s'[j], p.seqNo, p.dev);
    } else {
      forall i, j | 0 <= i < j < |s| && HasKey(s'[i], p.seqNo, p.dev) && HasKey(s'[j], p.seqNo, p.dev)
        ensures s'[i].value.createdMs <= s'[j].value.createdMs
      {
        assert i != f ==> s'[i] == s[i];
        assert j != f ==> s'[j] == s[j];
      }
    }
  }

  lemma OthersKeepAge(s: seq<Slot>, mv: TableMove, s': seq<Slot>, l: Ledger, seqNo: u32, dev: u32)
    requires Effect(s, mv, s', l) && AgeOrdered(s, seqNo, dev)
    requires mv.Insert? ==> mv.p.seqNo != seqNo || mv.p.dev != dev
    ensures AgeOrdered(s', seqNo, dev)
  {
    assert |s'| == |s| && forall i | 0 <= i < |s| :: HasKey(s'[i], seqNo, dev) ==> s'[i] == s[i];
    forall i, j | 0 <= i < j < |s| && HasKey(s'[i], seqNo, dev) && HasKey(s'[j], seqNo, dev)
      ensures s'[i].value.createdMs <= s'[j].value.createdMs
    {
      assert s'[i] == s[i] && s'[j] == s[j];
    }
  }

  lemma InsertTime(st: State, e: Input)
    requires MoveOf(st, e).Insert?
    ensures (e.LineIn? || e.SchedulerIn?) && MoveOf(st, e).p.createdMs == e.now
    ensures FirstFree(st.slots) < |st.slots|
  {
    if e.LineIn? {
      InsertedMove(st, e.fd, Parse(e.line).value, e.now, e.wr);
    }
  }

  /** The step accepts a request with the key. */
  predicate TakesKey(st: State, e: Input, seqNo: u32, dev: u32) {
    MoveOf(st, e).Insert? && MoveOf(st, e).p.seqNo == seqNo && MoveOf(st, e).p.dev == dev
  }

  predicate OvertakesIn(st: State, e: Input, seqNo: u32, dev: u32) {
    TakesKey(st, e, seqNo, dev) && Overtakes(st.slots, seqNo, dev, MoveOf(st, e).p.createdMs)
  }

  /** A step keeps the order for the key exactly when it accepts no request with the key that overtakes an older one:
      so much can be seen before the request is accepted. */
  lemma AgeOrderKept(st: State, e: Input, seqNo: u32, dev: u32)
    requires AgeOrdered(st.slots, seqNo, dev)
    requires MoveOf(st, e).Insert? ==> NoneYounger(st.slots, MoveOf(st, e).p.createdMs)
    ensures AgeOrdered(Step(st, e).st.slots, seqNo, dev) <==> !OvertakesIn(st, e, seqNo, dev)
  {
    StepMoves(st, e);
    var mv := MoveOf(st, e);
    if TakesKey(st, e, seqNo, dev) {
      InsertTime(st, e);
      InsertKeepsAge(st.slots, mv.p);
    } else {
      OthersKeepAge(st.slots, mv, Step(st, e).st.slots, Step(st, e).ledger, seqNo, dev);
    }
  }

  predicate Timed(e: Input) {
    e.LineIn? || e.SchedulerIn?
  }

  /** The clock of the inputs that can take a slot starts at t and does not go back. */
  predicate ClockFrom(es: seq<Input>, t: int)
    decreases |es|
  {
    es != [] ==> (Timed(es[0]) ==> es[0].now >= t) && ClockFrom(es[1..], if Timed(es[0]) then es[0].now else t)
  }

  /** The table is age-ordered for the key at every moment of the run. */
  predicate AlwaysOrdered(st: State, es: seq<Input>, seqNo: u32, dev: u32)
    decreases |es|
  {
    AgeOrdered(st.slots, seqNo, dev) && (es != [] ==> AlwaysOrdered(Step(st, es[0]).st, es[1..], seqNo, dev))
  }

  /** No accepted request with the key overtakes an older one. */
  predicate NoneOvertakes(st: State, es: seq<Input>, seqNo: u32, dev: u32)
    decreases |es|
  {
    es != [] ==> !OvertakesIn(st, es[0], seqNo, dev) && NoneOvertakes(Step(st, es[0]).st, es[1..], seqNo, dev)
  }

  lemma NoneYoungerStep(st: State, e: Input, t: int)
    requires NoneYounger(st.slots, t) && (Timed(e) ==> e.now >= t)
    ensures NoneYounger(Step(st, e).st.slots, if Timed(e) then e.now else t)
  {
    StepMoves(st, e);
    if MoveOf(st, e).Insert? {
      InsertTime(st, e);
    }
  }

  /** Over runs, key by key: the table stays age-ordered for the key if and only if no accepted request with the key
      overtakes an older one, whatever happens under other keys. */
  lemma {:induction false} AgeOrderOverRuns(st: State, es: seq<Input>, t: int, seqNo: u32, dev: u32)
    requires AgeOrdered(st.slots, seqNo, dev) && NoneYounger(st.slots, t) && ClockFrom(es, t)
    ensures AlwaysOrdered(st, es, seqNo, dev) <==> NoneOvertakes(st, es, seqNo, dev)
    decreases |es|
  {
    if es != [] {
      var e := es[0];
      NoneYoungerStep(st, e, t);
      if MoveOf(st, e).Insert? {
        InsertTime(st, e);
      }
      AgeOrderKept(st, e, seqNo, dev);
      if !OvertakesIn(st, e, seqNo, dev) {
        AgeOrderOverRuns(Step(st, e).st, es[1..], if Timed(e) then e.now else t, seqNo, dev);
      }
    }
  }

  /** Every entry with the key that the run frees by a response is, at that moment, the oldest with the key. */
  predicate AnsweredInOrder(st: State, es: seq<Input>, seqNo: u32, dev: u32)
    decreases |es|
  {
    es != [] ==>
      && (MoveOf(st, es[0]).Release? ==>
            var i := MoveOf(st, es[0]).i;
            i < |st.slots| && HasKey(st.slots[i], seqNo, dev) ==> Oldest(st.slots, i, seqNo, dev))
      && AnsweredInOrder(Step(st, es[0]).st, es[1..], seqNo, dev)
  }

  lemma ReleaseIsFirst(st: State, e: Input)
    requires MoveOf(st, e).Release?
    ensures var i := MoveOf(st, e).i;
            && i < |st.slots| && st.slots[i].Some?
            && i == FirstMatch(st.slots, st.slots[i].value.seqNo, st.slots[i].value.dev)
  {
    if e.LineIn? {
      var parsed := Parse(e.line);
      if parsed.Some? {
        assert MoveOf(st, e) == MessageMove(st, e.fd, parsed.value, e.now, e.wr);
      }
    }
  }

  /** So in a run in which no request with the key overtakes another, the requests with the key are answered in the
      order in which they came. */
  lemma {:induction false} OldestFirst(st: State, es: seq<Input>, t: int, seqNo: u32, dev: u32)
    requires AgeOrdered(st.slots, seqNo, dev) && NoneYounger(st.slots, t) && ClockFrom(es, t)
    requires NoneOvertakes(st, es, seqNo, dev)
    ensures AnsweredInOrder(st, es, seqNo, dev)
    decreases |es|
  {
    if es != [] {
      var e := es[0];
      if MoveOf(st, e).Release? {
        ReleaseIsFirst(st, e);
        OldestIsAnswered(st.slots, seqNo, dev);
      }
      NoneYoungerStep(st, e, t);
      if MoveOf(st, e).Insert? {
        InsertTime(st, e);
      }
      AgeOrderKept(st, e, seqNo, dev);
      OldestFirst(Step(st, e).st, es[1..], if Timed(e) then e.now else t, seqNo, dev);
    }
  }

  // ----- an entry waits

  /** Step e neither answers entry p, nor times it out, nor accepts a request under a live key. */
  predicate Calm(st: State, e: Input, p: Pending) {
    && !(CarriesKey(e, Resp, p.seqNo, p.dev) && IsController(st, e.fd))
    && (e.SweepIn? ==> e.now - p.createdMs <= 10000)
    && (e.LineIn? && MoveOf(st, e).Insert? ==>
          FirstMatch(st.slots, MoveOf(st, e).p.seqNo, MoveOf(st, e).p.dev) == |st.slots|)
  }

  predicate CalmRun(st: State, es: seq<Input>, p: Pending)
    decreases |es|
  {
    es != [] ==> Calm(st, es[0], p) && CalmRun(Step(st, es[0]).st, es[1..], p)
  }

  lemma StaysInSlot(s: seq<Slot>, mv: TableMove, s': seq<Slot>, l: Ledger, i: nat)
    requires Effect(s, mv, s', l) && i < |s| && s[i].Some?
    ensures |s'| == |s|
    ensures s'[i] == s[i] || mv == Release(i) || (mv.Clear? && Expired(s[i], mv.now))
  {
  }

  lemma ReleasedLine(st: State, e: Input, m: Message, i: nat)
    requires e.LineIn? && Parse(e.line) == Some(m) && MoveOf(st, e) == Release(i)
    ensures i < |st.slots| && st.slots[i].Some?
    ensures CarriesKey(e, Resp, st.slots[i].value.seqNo, st.slots[i].value.dev) && IsController(st, e.fd)
  {
  }

  lemma EntryStaysStep(st: State, e: Input, i: nat)
    requires i < |st.slots| && st.slots[i].Some? && Calm(st, e, st.slots[i].value)
    ensures |Step(st, e).st.slots| == |st.slots| && Step(st, e).st.slots[i] == st.slots[i]
  {
    StepMoves(st, e);
    StaysInSlot(st.slots, MoveOf(st, e), Step(st, e).st.slots, Step(st, e).ledger, i);
    if MoveOf(st, e) == Release(i) {
      ReleasedLine(st, e, Parse(e.line).value, i);
    }
  }

  /** Through any run that does not answer it, does not outlast it and reuses no live key, an entry stays
      in its slot and all live keys stay unique. */
  lemma {:induction false} EntryStays(st: State, es: seq<Input>, i: nat)
    requires UniqueKeys(st.slots) && i < |st.slots| && st.slots[i].Some?
    ensures var s' := StateAfter(st, es).slots;
            CalmRun(st, es, st.slots[i].value) ==> |s'| == |st.slots| && s'[i] == st.slots[i] && UniqueKeys(s')
    decreases |es|
  {
    if es != [] && CalmRun(st, es, st.slots[i].value) {
      EntryStaysStep(st, es[0], i);
      UniqueKept(st, es[0]);
      EntryStays(Step(st, es[0]).st, es[1..], i);
    }
  }

  // ----- scheduler and tracker

  predicate OneScheduled(s: seq<Slot>) {
    forall i, j | 0 <= i < j < |s| && s[i].Some? && s[j].Some? :: !(s[i].value.fromScheduler && s[j].value.fromScheduler)
  }

  lemma OneScheduledMove(s: seq<Slot>, mv: TableMove, s': seq<Slot>, l: Ledger)
    requires Effect(s, mv, s', l) && OneScheduled(s)
    requires mv.Insert? ==> !mv.p.fromScheduler || !AnyLive(s)
    ensures OneScheduled(s')
  {
  }

  /** At most one entry of the scheduler's own is ever live. */
  lemma OneScheduledKept(st: State, e: Input)
    requires OneScheduled(st.slots)
    ensures OneScheduled(Step(st, e).st.slots)
  {
    StepMoves(st, e);
    var mv := MoveOf(st, e);
    if mv.Insert? {
      if e.SchedulerIn? {
        NothingLive(st, e.now, e.wr);
      } else {
        InsertedMove(st, e.fd, Parse(e.line).value, e.now, e.wr);
      }
    }
    OneScheduledMove(st.slots, mv, Step(st, e).st.slots, Step(st, e).ledger);
  }

  /** An input, and the module snapshots it finds, whatever they are: as if module states were recorded. */
  datatype Seen = Seen(modules: Modules, e: Input)

  function Find(st: State, x: Seen): State {
    st.(modules := x.modules)
  }

  function SeenAfter(st: State, xs: seq<Seen>): State
    decreases |xs|
  {
    if xs == [] then st else SeenAfter(Step(Find(st, xs[0]), xs[0].e).st, xs[1..])
  }

  /** Whatever the modules are found to be at each step, from any state with at most one live entry of the scheduler's
      own there is never more than one. */
  lemma {:induction false} OneScheduledEver(st: State, xs: seq<Seen>)
    requires OneScheduled(st.slots)
    ensures OneScheduled(SeenAfter(st, xs).slots)
    decreases |xs|
  {
    if xs != [] {
      OneScheduledKept(Find(st, xs[0]), xs[0].e);
      OneScheduledEver(Step(Find(st, xs[0]), xs[0].e).st, xs[1..]);
    }
  }

  predicate HoldsScheduled(s: seq<Slot>) {
    exists i | 0 <= i < |s| :: s[i].Some? && s[i].value.fromScheduler
  }

  /** While one is live the scheduler starts nothing: its next START waits for the answer or for the timeout. */
  lemma WaitsForItsAnswer(st: State, x: Seen)
    requires HoldsScheduled(st.slots) && x.e.SchedulerIn?
    ensures var o := Step(Find(st, x), x.e); o.sent == [] && o.st.slots == st.slots && o.st.job == st.job
  {
    NoneLive(st.slots);
  }

  /** A tick that decides to START finds slot 0 free and its line fits the 256-byte buffer: only the write
      can fail. If it does, the job has moved on although nothing was sent. */
  lemma SchedulerSends(st: State, now: int, wr: bool)
    requires |st.slots| == SLOTS && st.pmcFd >= 0
    requires var ms := RefreshedAll(st.modules, now);
             StartOf(st.job, AnyLive(st.slots), ms.preclean, ms.deposition).Some?
    ensures var ms := RefreshedAll(st.modules, now);
            var dev := StartOf(st.job, AnyLive(st.slots), ms.preclean, ms.deposition).value;
            var o := Schedule(st, now, wr);
            && o.st.job == (if dev == 1 then PrecleanSent else DepositionSent)
            && (wr ==> o.sent == [Packet(st.pmcFd, Render(StartMessage(dev, st.nextSeq)))]
                       && o.st.slots == st.slots[0 := Some(Pending(-1, st.nextSeq, dev, Start, true, now))])
            && (!wr ==> o.sent == [] && o.st.slots == st.slots)
  {
    var ms := RefreshedAll(st.modules, now);
    var dev := StartOf(st.job, AnyLive(st.slots), ms.preclean, ms.deposition).value;
    NoneLive(st.slots);
    FloatFreeSize(StartMessage(dev, st.nextSeq));
  }

  /** A run of ticks through which a job that has sent its START to dev waits. */
  predicate WaitingTicks(st: State, dev: u32, xs: seq<Seen>) {
    forall x | x in xs ::
      && x.e.SchedulerIn?
      && var ms := RefreshedAll(x.modules, x.e.now); KeepsWaiting(dev, ms.preclean, ms.deposition)
  }

  /** A START whose write failed is lost for good: while the modules look as they did, nothing is sent again. */
  lemma {:induction false} LostStartWaits(st: State, dev: u32, xs: seq<Seen>)
    requires dev in {1, 2} && st.job == SentTo(dev) && WaitingTicks(st, dev, xs)
    ensures SeenAfter(st, xs).job == SentTo(dev) && SeenAfter(st, xs).slots == st.slots
    ensures xs != [] ==> Step(Find(st, xs[0]), xs[0].e).sent == []
    decreases |xs|
  {
    if xs != [] {
      assert xs[0] in xs && forall x | x in xs[1..] :: x in xs;
      WaitingTick(Find(st, xs[0]), dev, xs[0].e.now, xs[0].e.wr);
      LostStartWaits(Step(Find(st, xs[0]), xs[0].e).st, dev, xs[1..]);
    }
  }

  lemma WaitingTick(st: State, dev: u32, now: int, wr: bool)
    requires dev in {1, 2} && st.job == SentTo(dev)
    requires var ms := RefreshedAll(st.modules, now); KeepsWaiting(dev, ms.preclean, ms.deposition)
    ensures var o := Schedule(st, now, wr); o.sent == [] && o.st.job == st.job && o.st.slots == st.slots
  {
    var ms := RefreshedAll(st.modules, now);
    WaitEnds(dev, AnyLive(st.slots), ms.preclean, ms.deposition);
  }

  /** No live entry was created before t - 10 s. */
  predicate CreatedSince(s: seq<Slot>, t: int) {
    forall i | 0 <= i < |s| && s[i].Some? :: t - s[i].value.createdMs <= 10000
  }

  /** The clock of the inputs that can take a slot is not behind t. */
  predicate NotBefore(es: seq<Input>, t: int) {
    forall e | e in es :: (e.LineIn? ==> e.now >= t) && (e.SchedulerIn? ==> e.now >= t)
  }

  lemma CreatedSinceMove(s: seq<Slot>, mv: TableMove, s': seq<Slot>, l: Ledger, t: int)
    requires Effect(s, mv, s', l) && CreatedSince(s, t)
    requires mv.Insert? ==> t - mv.p.createdMs <= 10000
    ensures CreatedSince(s', t)
  {
    assert |s'| == |s| && forall i | 0 <= i < |s| && s'[i].Some? :: s'[i] == s[i] || (mv.Insert? && s'[i].value == mv.p);
  }

  lemma StaysCreatedSince(st: State, e: Input, t: int)
    requires CreatedSince(st.slots, t) && NotBefore([e], t)
    ensures CreatedSince(Step(st, e).st.slots, t)
  {
    StepMoves(st, e);
    assert e in [e];
    if MoveOf(st, e).Insert? {
      InsertTime(st, e);
    }
    CreatedSinceMove(st.slots, MoveOf(st, e), Step(st, e).st.slots, Step(st, e).ledger, t);
  }

  lemma {:induction false} CreatedSinceRun(st: State, es: seq<Input>, t: int)
    requires CreatedSince(st.slots, t) && NotBefore(es, t)
    ensures CreatedSince(StateAfter(st, es).slots, t)
    decreases |es|
  {
    if es != [] {
      assert es[0] in es && forall e | e in es[1..] :: e in es;
      StaysCreatedSince(st, es[0], t);
      CreatedSinceRun(Step(st, es[0]).st, es[1..], t);
    }
  }

  /** After a sweep at time t, and for the rest of the run, nothing created more than 10 s before t is live: a
      lost response blocks the scheduler no longer than that. A table that holds nothing else is empty at once. */
  lemma SweepBoundsWaiting(st: State, t: int, es: seq<Input>)
    requires NotBefore(es, t)
    ensures CreatedSince(StateAfter(st, [SweepIn(t)] + es).slots, t)
    ensures (forall p | p in st.slots :: p.Some? ==> Expired(p, t)) ==> !AnyLive(StateAfter(st, [SweepIn(t)]).slots)
  {
    var st1 := Step(st, SweepIn(t)).st;
    assert st1.slots == Swept(st.slots, t);
    assert forall i | 0 <= i < |st.slots| :: st.slots[i] in st.slots;
    CreatedSinceRun(st1, es, t);
    assert ([SweepIn(t)] + es)[1..] == es && [SweepIn(t)][1..] == [];
  }

  // ----- the scheduler never gets to act

  predicate Inert(st: State) {
    && Stateless(st.modules)
    && st.job in {Idle, Stopped, Failed}
    && st.nextSeq == FIRST_SEQ
  }

  lemma InertAnswer(st: State, i: nat, m: Message, wr: bool)
    requires Inert(st) && i < |st.slots| && st.slots[i].Some?
    ensures Inert(Answer(st, i, m, wr).st)
  {
    StaysStateless(st.modules, m, st.slots[i].value.dev, 0);
    assert Inert(Settled(st, i, m));
  }

  lemma InertMessage(st: State, fd: int, m: Message, now: int, wr: bool)
    requires Inert(st)
    ensures Inert(HandleMessage(st, fd, Some(m), now, wr).st)
  {
    var i := AnsweredSlot(st, fd, m);
    if IsAttach(m) {
    } else if i < |st.slots| {
      InertAnswer(st, i, m, wr);
    } else {
      StaysStateless(st.modules, m, 0, now);
      assert Inert(Routing(st, fd, m, now, wr).st);
    }
  }

  lemma InertSchedule(st: State, now: int, wr: bool)
    requires Inert(st)
    ensures var o := Schedule(st, now, wr);
            Inert(o.st) && o.sent == [] && o.ledger == NO_ENTRIES && o.st.slots == st.slots && o.st.job == st.job
  {
    StaysStateless(st.modules, PARSE_ERROR, 0, now);
    var ms := RefreshedAll(st.modules, now);
    StatelessTick(st.job, AnyLive(st.slots), ms.preclean, ms.deposition);
  }

  lemma ClientsOnly(st: State, e: Input)
    requires e.LineIn?
    ensures forall p | p in Step(st, e).ledger.taken :: !p.fromScheduler
  {
    forall p | p in Step(st, e).ledger.taken
      ensures !p.fromScheduler
    {
      ForwardMeans(st, e, p);
    }
  }

  lemma InertLine(st: State, fd: int, parsed: Option<Message>, now: int, wr: bool)
    requires Inert(st)
    ensures Inert(HandleMessage(st, fd, parsed, now, wr).st)
  {
    if parsed.Some? {
      InertMessage(st, fd, parsed.value, now, wr);
    }
  }

  lemma InertStep(st: State, e: Input)
    requires Inert(st)
    ensures Inert(Step(st, e).st)
  {
    match e
    case SchedulerIn(now, wr) => InertSchedule(st, now, wr);
    case LineIn(fd, line, now, wr) =>
      InertLine(st, fd, Parse(line), now, wr);
      var st' := HandleMessage(st, fd, Parse(line), now, wr).st;
      assert Inert(Detached(st', fd));
    case _ =>
  }

  /** As composed, whatever arrives: module states are never recorded, so no run of the daemon ever
      sends a START of its own and the job state only moves by acknowledged STOP, RESET and FAULT. */
  lemma {:induction false} SchedulerIsInert(es: seq<Input>, st: State)
    requires Inert(st)
    ensures Inert(StateAfter(st, es))
    ensures forall p | p in LedgerOf(st, es).taken :: !p.fromScheduler
    decreases |es|
  {
    if es != [] {
      InertStep(st, es[0]);
      if es[0].LineIn? {
        ClientsOnly(st, es[0]);
      } else if es[0].SchedulerIn? {
        InertSchedule(st, es[0].now, es[0].wr);
      }
      SchedulerIsInert(es[1..], Step(st, es[0]).st);
    }
  }

  /** The command a step acknowledges: a response with ok=1 that is no ERROR and releases its entry. */
  function AckOf(st: State, e: Input): Option<MsgType> {
    if !e.LineIn? then None
    else
      match Parse(e.line)
      case None => None
      case Some(m) =>
        var mv := MessageMove(st, e.fd, m, e.now, e.wr);
        if mv.Release? && m.typ != Error && m.ok == Some(1) then Some(st.slots[mv.i].value.typ) else None
  }

  function JobAfterAck(job: JobState, ack: Option<MsgType>): JobState {
    match ack
    case Some(Stop) => Stopped
    case Some(Reset) => Idle
    case Some(Fault) => Failed
    case _ => job
  }

  /** The job state if only acknowledgements moved it. */
  function JobAfterAcks(job: JobState, st: State, es: seq<Input>): JobState
    decreases |es|
  {
    if es == [] then job else JobAfterAcks(JobAfterAck(job, AckOf(st, es[0])), Step(st, es[0]).st, es[1..])
  }

  lemma AckedLine(st: State, fd: int, m: Message, now: int, wr: bool)
    ensures var mv := MessageMove(st, fd, m, now, wr);
            var ack := if mv.Release? && m.typ != Error && m.ok == Some(1) then Some(st.slots[mv.i].value.typ) else None;
            HandleMessage(st, fd, Some(m), now, wr).st.job == JobAfterAck(st.job, ack)
  {
  }

  lemma AckedStep(st: State, e: Input)
    requires Inert(st)
    ensures Step(st, e).st.job == JobAfterAck(st.job, AckOf(st, e))
  {
    match e
    case LineIn(fd, line, now, wr) =>
      var parsed := Parse(line);
      assert Detached(HandleMessage(st, fd, parsed, now, wr).st, fd).job == HandleMessage(st, fd, parsed, now, wr).st.job;
      if parsed.Some? {
        AckedLine(st, fd, parsed.value, now, wr);
      }
    case SchedulerIn(now, wr) => InertSchedule(st, now, wr);
    case _ =>
  }

  /** So the job state says no more than the last acknowledged STOP, RESET or FAULT. */
  lemma {:induction false} JobIsLastAck(st: State, es: seq<Input>)
    requires Inert(st)
    ensures StateAfter(st, es).job == JobAfterAcks(st.job, st, es)
    decreases |es|
  {
    if es != [] {
      AckedStep(st, es[0]);
      InertStep(st, es[0]);
      JobIsLastAck(Step(st, es[0]).st, es[1..]);
    }
  }

  lemma InitIsInert()
    ensures Inert(INIT) && |INIT.slots| == 16 && Live(INIT.slots) == multiset{}
    ensures UniqueKeys(INIT.slots) && OneScheduled(INIT.slots)
  {
    NoneLive(INIT.slots);
  }
}
