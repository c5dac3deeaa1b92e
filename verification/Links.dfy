/** The controller links of equipmentd and the connections that are really open. */
module Links {
  import opened Wrappers
  import opened Messages
  import opened Codec
  import opened Tracker
  import opened Daemon
  import opened DaemonRuns
  import Router

  datatype Link = PmcLink | TmcLink

  function LinkFd(st: State, l: Link): int {
    if l == TmcLink then st.tmcFd else st.pmcFd
  }

  /** equipmentd and its connections. The kernel gives a descriptor number to one open connection at a time, and again
      to a later one: `open` maps each open number to its connection, of which `count` were accepted so far. For each
      link `pmcBy` and `tmcBy` are the connection that attached it, `askers` for each slot the one that asked. */
  datatype Net = Net(
    st: State, open: map<int, nat>, count: nat, pmcBy: nat, tmcBy: nat, askers: map<nat, nat>)

  datatype Event = Accepted(fd: int) | Did(e: Input)

  const START := Net(INIT, map[], 0, 0, 0, map[])

  function By(n: Net, l: Link): nat {
    if l == TmcLink then n.tmcBy else n.pmcBy
  }

  /** accept returns a number that is not open; a closed connection sends nothing and is not closed again. */
  predicate Enabled(n: Net, ev: Event) {
    if ev.Accepted? then ev.fd >= 0 && ev.fd !in n.open
    else (ev.e.LineIn? || ev.e.GoneIn? || ev.e.DroppedIn?) ==> ev.e.fd in n.open
  }

  predicate Reachable(n: Net, ps: seq<Packet>) {
    forall p | p in ps :: p.fd in n.open
  }

  /** A write into a closed descriptor fails, whatever else would have come of it. */
  function Attempted(n: Net, e: Input): Input {
    if e.LineIn? then LineIn(e.fd, e.line, e.now, e.wr && Reachable(n, Step(n.st, LineIn(e.fd, e.line, e.now, true)).sent))
    else if e.SchedulerIn? then SchedulerIn(e.now, e.wr && Reachable(n, Step(n.st, SchedulerIn(e.now, true)).sent))
    else e
  }

  function Happened(n: Net, e: Input): Outcome {
    Step(n.st, Attempted(n, e))
  }

  /** The input, with outcome o, closes its connection. */
  predicate Shuts(e: Input, o: Outcome) {
    e.GoneIn? || e.DroppedIn? || (e.LineIn? && o.ret < 0)
  }

  predicate Closes(n: Net, e: Input) {
    Shuts(e, Happened(n, e))
  }

  predicate IsAttachOf(m: Message, l: Link) {
    IsAttach(m) && (l == TmcLink <==> m.dev == Some(100))
  }

  /** A REGISTER that makes its sender the link. */
  predicate Attaches(e: Input, l: Link) {
    e.LineIn? && Parse(e.line).Some? && IsAttachOf(Parse(e.line).value, l)
  }

  /** A client's request takes a slot. */
  predicate Takes(n: Net, e: Input) {
    e.LineIn? && MoveOf(n.st, Attempted(n, e)).Insert?
  }

  /** After an input with outcome o. */
  function Moved(n: Net, e: Input, o: Outcome, took: bool): Net
    requires e.LineIn? ==> e.fd in n.open
    requires took ==> e.LineIn?
  {
    Net(o.st,
        if Shuts(e, o) then n.open - {e.fd} else n.open, n.count,
        if Attaches(e, PmcLink) then n.open[e.fd] else n.pmcBy,
        if Attaches(e, TmcLink) then n.open[e.fd] else n.tmcBy,
        if took then n.askers[FirstFree(n.st.slots) := n.open[e.fd]] else n.askers)
  }

  function NetStep(n: Net, ev: Event): Net {
    if !Enabled(n, ev) then n
    else if ev.Accepted? then n.(open := n.open[ev.fd := n.count], count := n.count + 1)
    else Moved(n, ev.e, Happened(n, ev.e), Takes(n, ev.e))
  }

  function NetRun(evs: seq<Event>): Net {
    if evs == [] then START else NetStep(NetRun(evs[..|evs| - 1]), evs[|evs| - 1])
  }

  const FIRST_CONN := 5

  /** What POSIX promises of accept: it returns the lowest number that is not open. The standard streams, the listening
      socket and the epoll instance have the numbers below FIRST_CONN. */
  predicate Lowest(n: Net, fd: int) {
    fd >= FIRST_CONN && fd !in n.open && forall k | FIRST_CONN <= k < fd :: k in n.open
  }

  /** A run in which every event can happen. */
  predicate Possible(evs: seq<Event>) {
    evs != [] ==>
      var fs, ev := evs[..|evs| - 1], evs[|evs| - 1];
      Possible(fs) && Enabled(NetRun(fs), ev) && (ev.Accepted? ==> Lowest(NetRun(fs), ev.fd))
  }

  // ----- where a link points

  lemma MessageLinks(st: State, fd: int, parsed: Option<Message>, now: int, wr: bool, l: Link)
    ensures LinkFd(HandleMessage(st, fd, parsed, now, wr).st, l) ==
              if parsed.Some? && IsAttachOf(parsed.value, l) then fd else LinkFd(st, l)
  {
  }

  lemma LineLinks(st: State, e: Input, parsed: Option<Message>, l: Link)
    requires e.LineIn? && parsed == Parse(e.line)
    ensures var f := if parsed.Some? && IsAttachOf(parsed.value, l) then e.fd else LinkFd(st, l);
            LinkFd(Step(st, e).st, l) == if Step(st, e).ret < 0 && f == e.fd then -1 else f
  {
    MessageLinks(st, e.fd, parsed, e.now, e.wr, l);
    var o := HandleMessage(st, e.fd, parsed, e.now, e.wr);
    assert LinkFd(Detached(o.st, e.fd), l) == if LinkFd(o.st, l) == e.fd then -1 else LinkFd(o.st, l);
  }

  lemma StepLinks(n: Net, e: Input, l: Link)
    requires !e.LineIn?
    ensures LinkFd(Happened(n, e).st, l) == if e.GoneIn? && LinkFd(n.st, l) == e.fd then -1 else LinkFd(n.st, l)
  {
  }

  lemma AttemptedLine(n: Net, e: Input)
    requires e.LineIn?
    ensures Attempted(n, e).LineIn? && Attempted(n, e).fd == e.fd && Attempted(n, e).line == e.line
    ensures Attempted(n, e).wr ==> e.wr
  {
  }

  /** The number a link has after an input, before a close takes it away. */
  function Pointed(n: Net, e: Input, l: Link): int {
    if Attaches(e, l) then e.fd else LinkFd(n.st, l)
  }

  lemma LinkAfter(n: Net, e: Input, l: Link)
    requires Enabled(n, Did(e))
    ensures LinkFd(NetStep(n, Did(e)).st, l) ==
              if !e.DroppedIn? && Closes(n, e) && Pointed(n, e, l) == e.fd then -1 else Pointed(n, e, l)
  {
    if e.LineIn? {
      AttemptedLine(n, e);
      LineLinks(n.st, Attempted(n, e), Parse(e.line), l);
    } else {
      StepLinks(n, e, l);
    }
  }

  /** Every connection is open under one number; connections in use were accepted. */
  predicate NetInv(n: Net) {
    && (forall fd | fd in n.open :: fd >= 0 && n.open[fd] < n.count)
    && (forall a, b | a in n.open && b in n.open && a != b :: n.open[a] != n.open[b])
    && (forall l: Link :: LinkFd(n.st, l) >= -1 && (LinkFd(n.st, l) >= 0 ==> By(n, l) < n.count))
    && SlotsInv(n)
  }

  predicate SlotsInv(n: Net) {
    && |n.st.slots| == SLOTS
    && forall k: nat | k < SLOTS && ClientIn(n.st.slots[k]) :: k in n.askers && n.askers[k] < n.count
  }

  /** What the slots are after an input with outcome o: slot k is taken by it, or holds what it held, or no client's
      entry. */
  predicate SlotAfter(s: seq<Slot>, e: Input, o: Outcome, took: bool, k: nat) {
    && |o.st.slots| == |s| && k < |s|
    && (took ==> e.LineIn? && FirstFree(s) < |s| && o.ret >= 0)
    && (took && FirstFree(s) == k ==> o.st.slots[k].Some? && o.st.slots[k].value.clientFd == e.fd)
    && (!(took && FirstFree(s) == k) ==> !ClientIn(o.st.slots[k]) || o.st.slots[k] == s[k])
  }

  predicate ClientIn(p: Slot) {
    p.Some? && p.value.clientFd >= 0
  }

  lemma SlotsAfter(n: Net, e: Input, k: nat)
    requires k < |n.st.slots|
    ensures SlotAfter(n.st.slots, e, Happened(n, e), Takes(n, e), k)
  {
    var a := Attempted(n, e);
    StepMoves(n.st, a);
    if MoveOf(n.st, a).Insert? {
      InsertSource(n.st, a);
    }
  }

  lemma InsertSource(st: State, e: Input)
    requires MoveOf(st, e).Insert?
    ensures e.LineIn? || e.SchedulerIn?
    ensures e.LineIn? ==> MoveOf(st, e).p.clientFd == e.fd && Step(st, e).ret >= 0
    ensures e.SchedulerIn? ==> MoveOf(st, e).p.clientFd == -1
  {
    if e.LineIn? {
      InsertedMove(st, e.fd, Parse(e.line).value, e.now, e.wr);
    }
  }

  lemma SlotsMoved(n: Net, e: Input, o: Outcome, took: bool)
    requires NetInv(n) && Enabled(n, Did(e)) && (took ==> e.LineIn?)
    requires forall k: nat | k < SLOTS :: SlotAfter(n.st.slots, e, o, took, k)
    ensures SlotsInv(Moved(n, e, o, took))
  {
    var n' := Moved(n, e, o, took);
    assert SlotAfter(n.st.slots, e, o, took, 0);
    forall k: nat | k < SLOTS && ClientIn(n'.st.slots[k])
      ensures k in n'.askers && n'.askers[k] < n'.count
    {
      assert SlotAfter(n.st.slots, e, o, took, k);
      assert n.st.slots[k] == n'.st.slots[k] ==> ClientIn(n.st.slots[k]);
    }
  }

  lemma InvKept(n: Net, ev: Event)
    requires NetInv(n)
    ensures NetInv(NetStep(n, ev))
  {
    if Enabled(n, ev) && ev.Did? {
      var n' := NetStep(n, ev);
      forall l: Link
        ensures LinkFd(n'.st, l) >= -1 && (LinkFd(n'.st, l) >= 0 ==> By(n', l) < n'.count)
      {
        LinkAfter(n, ev.e, l);
      }
      forall k: nat | k < SLOTS
        ensures SlotAfter(n.st.slots, ev.e, Happened(n, ev.e), Takes(n, ev.e), k)
      {
        SlotsAfter(n, ev.e, k);
      }
      SlotsMoved(n, ev.e, Happened(n, ev.e), Takes(n, ev.e));
    }
  }

  lemma StartInv()
    ensures NetInv(START)
  {
    assert |INIT.slots| == SLOTS && forall k: nat | k < SLOTS :: INIT.slots[k].None?;
  }

  lemma {:induction false} InvHolds(evs: seq<Event>)
    ensures NetInv(NetRun(evs))
  {
    if evs == [] {
      StartInv();
    } else {
      InvHolds(evs[..|evs| - 1]);
      InvKept(NetRun(evs[..|evs| - 1]), evs[|evs| - 1]);
    }
  }

  /** The connection that attached the link is open, under the link's number. */
  predicate Leads(n: Net, l: Link) {
    LinkFd(n.st, l) in n.open && n.open[LinkFd(n.st, l)] == By(n, l)
  }

  /** A link is unset, leads to the connection that attached it, or points elsewhere: at a closed number, or at a
      connection that came later. */
  datatype LinkStatus = Unset | Right | Wrong

  function StatusOf(n: Net, l: Link): LinkStatus {
    if LinkFd(n.st, l) == -1 then Unset else if Leads(n, l) then Right else Wrong
  }

  /** What an event is to a link: it attaches it; it closes the connection under the link's number and forgets the link;
      it closes that connection, by the idle scan or an overflow, without forgetting the link. */
  datatype Mark = Sets | Clears | Drops | Other

  function MarkOf(n: Net, ev: Event, l: Link): Mark {
    if !Enabled(n, ev) || ev.Accepted? then Other
    else if Closes(n, ev.e) && Pointed(n, ev.e, l) == ev.e.fd then (if ev.e.DroppedIn? then Drops else Clears)
    else if Attaches(ev.e, l) then Sets
    else Other
  }

  function AfterMark(s: LinkStatus, m: Mark): LinkStatus {
    match m case Sets => Right case Clears => Unset case Drops => Wrong case Other => s
  }

  /** One event. A newcomer that is given the link's number makes nothing right. */
  lemma StatusStep(n: Net, ev: Event, l: Link)
    requires NetInv(n)
    ensures StatusOf(NetStep(n, ev), l) == AfterMark(StatusOf(n, l), MarkOf(n, ev, l))
  {
    if Enabled(n, ev) && ev.Did? {
      LinkAfter(n, ev.e, l);
    }
  }

  function Marks(evs: seq<Event>, l: Link): (ms: seq<Mark>)
    ensures |ms| == |evs|
  {
    if evs == [] then []
    else
      var fs := evs[..|evs| - 1];
      Marks(fs, l) + [MarkOf(NetRun(fs), evs[|evs| - 1], l)]
  }

  /** Among the marks that matter the last one is x. */
  predicate LastIs<T(==)>(ms: seq<T>, x: T, other: T) {
    exists i | 0 <= i < |ms| :: ms[i] == x && Only(ms, i + 1, other)
  }

  predicate Only<T(==)>(ms: seq<T>, from: nat, other: T) {
    forall j | from <= j < |ms| :: ms[j] == other
  }

  /** Where the last mark shows. */
  lemma LastIsSnoc<T>(ms: seq<T>, m: T, x: T, other: T)
    requires x != other
    ensures LastIs(ms + [m], x, other) <==> m == x || (m == other && LastIs(ms, x, other))
  {
    var ns := ms + [m];
    if m == x {
      assert ns[|ms|] == x && Only(ns, |ms| + 1, other);
    } else if m == other {
      forall i | 0 <= i < |ms|
        ensures ns[i] == ms[i] && (Only(ns, i + 1, other) <==> Only(ms, i + 1, other))
      {
        assert Only(ns, i + 1, other) ==> forall j | i + 1 <= j < |ms| :: ns[j] == ms[j];
      }
    } else {
      assert ns[|ms|] != other;
      assert forall i | 0 <= i < |ms| :: ns[i] == ms[i] && !Only(ns, i + 1, other);
    }
  }

  /** In every run from the start: a link leads to the connection that attached it if and only if, of everything that
      concerned it, that attach came last; it is unset if and only if nothing did or it was last forgotten; and it is
      wrong if and only if the idle scan or an overflow last closed the connection under its number. */
  lemma {:induction false} LinkIs(evs: seq<Event>, l: Link)
    ensures Leads(NetRun(evs), l) <==> LastIs(Marks(evs, l), Sets, Other)
    ensures StatusOf(NetRun(evs), l) == Wrong <==> LastIs(Marks(evs, l), Drops, Other)
    ensures StatusOf(NetRun(evs), l) == Unset <==> LastIs(Marks(evs, l), Clears, Other) || Only(Marks(evs, l), 0, Other)
  {
    if evs != [] {
      var fs, ev := evs[..|evs| - 1], evs[|evs| - 1];
      var m := MarkOf(NetRun(fs), ev, l);
      LinkIs(fs, l);
      InvHolds(fs);
      InvHolds(evs);
      StatusStep(NetRun(fs), ev, l);
      LastIsSnoc(Marks(fs, l), m, Sets, Other);
      LastIsSnoc(Marks(fs, l), m, Drops, Other);
      LastIsSnoc(Marks(fs, l), m, Clears, Other);
      OnlySnoc(Marks(fs, l), m, Other);
    }
  }

  lemma OnlySnoc<T>(ms: seq<T>, m: T, other: T)
    ensures Only(ms + [m], 0, other) <==> Only(ms, 0, other) && m == other
  {
    var ns := ms + [m];
    assert ns[|ms|] == m && forall j | 0 <= j < |ms| :: ns[j] == ms[j];
  }

  /** A wrong link comes to lead to its attacher again by an attach alone, and is forgotten by nothing but the end of
      a connection that was given its number. */
  lemma WrongLinkEnds(evs: seq<Event>, ev: Event, l: Link)
    requires StatusOf(NetRun(evs), l) == Wrong
    ensures var n, n' := NetRun(evs), NetStep(NetRun(evs), ev);
            && (Leads(n', l) <==> MarkOf(n, ev, l) == Sets)
            && (StatusOf(n', l) == Unset <==> MarkOf(n, ev, l) == Clears)
            && (MarkOf(n, ev, l) == Clears && !Attaches(ev.e, l) ==> LinkFd(n.st, l) in n.open && n.open[LinkFd(n.st, l)] != By(n, l))
  {
    InvHolds(evs);
    InvKept(NetRun(evs), ev);
    StatusStep(NetRun(evs), ev, l);
  }

  // ----- what a stale link costs

  /** The line is a request that is routed to the link. */
  predicate GoesTo(n: Net, e: Input, l: Link) {
    e.LineIn? && Parse(e.line).Some? &&
    var m := Parse(e.line).value;
    && Router.Route(m, n.st.pmcFd, n.st.tmcFd) == Router.Forward
    && Router.TargetFd(n.st.pmcFd, n.st.tmcFd, m.dev.value) == LinkFd(n.st, l)
  }

  lemma ForwardFails(st: State, fd: int, m: Message, now: int)
    requires Router.Route(m, st.pmcFd, st.tmcFd) == Router.Forward
    ensures var o := HandleMessage(st, fd, Some(m), now, false); o.ret < 0 && o.sent == [] && o.st == st
    ensures var o := HandleMessage(st, fd, Some(m), now, true);
            o.sent == [] ==> o == HandleMessage(st, fd, Some(m), now, false).(ledger := o.ledger)
    ensures forall p | p in HandleMessage(st, fd, Some(m), now, true).sent ::
              p.fd == Router.TargetFd(st.pmcFd, st.tmcFd, m.dev.value)
  {
    assert HandleMessage(st, fd, Some(m), now, false) == Routing(st, fd, m, now, false);
    assert HandleMessage(st, fd, Some(m), now, true) == Routing(st, fd, m, now, true);
  }

  lemma StaleAttempt(n: Net, e: Input, l: Link)
    requires GoesTo(n, e, l) && LinkFd(n.st, l) !in n.open
    ensures Happened(n, e).sent == [] && Happened(n, e).ret < 0 && Happened(n, e).st == Detached(n.st, e.fd)
  {
    var m := Parse(e.line).value;
    var o := HandleMessage(n.st, e.fd, Some(m), e.now, true);
    ForwardFails(n.st, e.fd, m, e.now);
    assert Step(n.st, LineIn(e.fd, e.line, e.now, true)).sent == o.sent;
    if o.sent != [] {
      assert o.sent[0] in o.sent;
      assert !Attempted(n, e).wr;
    }
  }

  /** While no connection has the link's number, a request for the link reaches nobody and closes the connection of the
      client that asked; the table and the link stay as they were. */
  lemma StaleLinkCost(n: Net, e: Input, l: Link)
    requires NetInv(n) && Enabled(n, Did(e)) && GoesTo(n, e, l)
    requires LinkFd(n.st, l) !in n.open
    ensures Happened(n, e).sent == [] && Happened(n, e).st.slots == n.st.slots
    ensures var n' := NetStep(n, Did(e));
            && n'.open == n.open - {e.fd} && LinkFd(n'.st, l) == LinkFd(n.st, l) && StatusOf(n', l) == Wrong
            && n'.askers == n.askers
  {
    StaleAttempt(n, e, l);
    LinkAfter(n, e, l);
    KeptTable(n, e);
  }

  lemma KeptTable(n: Net, e: Input)
    requires NetInv(n) && Enabled(n, Did(e)) && Happened(n, e).st.slots == n.st.slots
    ensures NetStep(n, Did(e)).askers == n.askers
  {
    SlotsAfter(n, e, if FirstFree(n.st.slots) < SLOTS then FirstFree(n.st.slots) else 0);
  }

  /** A newcomer that is given the number of a wrong link does not make it right, but it is where the link then leads. */
  lemma NewcomerTakesNumber(evs: seq<Event>, fd: int, l: Link)
    requires StatusOf(NetRun(evs), l) == Wrong && fd == LinkFd(NetRun(evs).st, l) && fd !in NetRun(evs).open
    ensures var n := NetStep(NetRun(evs), Accepted(fd));
            StatusOf(n, l) == Wrong && LinkFd(n.st, l) == fd && fd in n.open && n.open[fd] == NetRun(evs).count
  {
    InvHolds(evs);
  }

  lemma ForwardWorks(st: State, fd: int, m: Message, now: int)
    requires Router.Route(m, st.pmcFd, st.tmcFd) == Router.Forward
    requires FirstFree(st.slots) < |st.slots| && Format(m, WBUF).Some?
    ensures m.seqNo.Some? && m.dev.Some?
    ensures HandleMessage(st, fd, Some(m), now, true) ==
              Outcome(st.(slots := st.slots[FirstFree(st.slots) := Some(ClientPending(fd, m, now))]), 0,
                      [Packet(Router.TargetFd(st.pmcFd, st.tmcFd, m.dev.value), Render(m))],
                      NO_ENTRIES.(taken := multiset{ClientPending(fd, m, now)}))
  {
    assert HandleMessage(st, fd, Some(m), now, true) == Routing(st, fd, m, now, true);
  }

  /** While some connection has the link's number, whoever it is, it is sent every request for the link that can be
      printed and written and finds a free slot; the request waits in that slot for the client that asked. */
  lemma HolderIsAsked(n: Net, e: Input, l: Link)
    requires Enabled(n, Did(e)) && GoesTo(n, e, l) && LinkFd(n.st, l) in n.open
    requires e.wr && FirstFree(n.st.slots) < |n.st.slots| && Format(Parse(e.line).value, WBUF).Some?
    ensures var m := Parse(e.line).value;
            && m.seqNo.Some? && m.dev.Some?
            && Happened(n, e).sent == [Packet(LinkFd(n.st, l), Render(m))]
            && NetStep(n, Did(e)) ==
                 n.(st := n.st.(slots := n.st.slots[FirstFree(n.st.slots) := Some(ClientPending(e.fd, m, e.now))]),
                    askers := n.askers[FirstFree(n.st.slots) := n.open[e.fd]])
  {
    var m := Parse(e.line).value;
    ForwardWorks(n.st, e.fd, m, e.now);
    var o := HandleMessage(n.st, e.fd, Some(m), e.now, true);
    assert Step(n.st, LineIn(e.fd, e.line, e.now, true)) == o;
    assert Reachable(n, o.sent);
    assert Attempted(n, e) == LineIn(e.fd, e.line, e.now, true);
    NotAnAnswer(n.st, e.fd, m);
    assert MessageMove(n.st, e.fd, m, e.now, true) == Insert(ClientPending(e.fd, m, e.now));
  }

  lemma NotAnAnswer(st: State, fd: int, m: Message)
    requires Router.Route(m, st.pmcFd, st.tmcFd) == Router.Forward
    ensures m.role == Req && !IsAttach(m) && AnsweredSlot(st, fd, m) == |st.slots|
  {
  }

  /** The line is a response for the entry in slot k, and can be passed on. */
  predicate AnswerFor(n: Net, e: Input, k: nat) {
    && e.LineIn? && e.wr && Parse(e.line).Some? && k < |n.st.slots| && n.st.slots[k].Some?
    && n.st.slots[k].value.clientFd in n.open && n.st.slots[k].value.clientFd >= 0
    && var m := Parse(e.line).value;
    && m.role == Resp && m.seqNo.Some? && m.dev.Some? && FirstMatch(n.st.slots, m.seqNo.value, m.dev.value) == k
    && Format(m, WBUF).Some?
  }

  /** Whoever has the number of a link is taken for the controller: its response goes to the number of the client
      that asked, and frees the entry. */
  lemma HolderAnswers(n: Net, e: Input, l: Link, k: nat)
    requires Enabled(n, Did(e)) && e.LineIn? && e.fd == LinkFd(n.st, l) && AnswerFor(n, e, k)
    ensures Happened(n, e).sent == [Packet(n.st.slots[k].value.clientFd, Render(Parse(e.line).value))]
    ensures var n' := NetStep(n, Did(e));
            && n'.st.slots == n.st.slots[k := None] && n'.open == n.open && n'.askers == n.askers
            && n'.st.pmcFd == n.st.pmcFd && n'.st.tmcFd == n.st.tmcFd && n'.count == n.count
            && n'.pmcBy == n.pmcBy && n'.tmcBy == n.tmcBy
  {
    var m := Parse(e.line).value;
    assert AnsweredSlot(n.st, e.fd, m) == k;
    var o := Answer(n.st, k, m, true);
    assert HandleMessage(n.st, e.fd, Some(m), e.now, true) == o;
    assert Step(n.st, LineIn(e.fd, e.line, e.now, true)) == o;
    assert Reachable(n, o.sent);
    assert Attempted(n, e) == LineIn(e.fd, e.line, e.now, true);
    assert MessageMove(n.st, e.fd, m, e.now, true) == Release(k);
  }

  // ----- who gets an answer

  /** What an event is to the entry in a slot: it puts a client's request there, or closes the connection under the
      number of the client whose request is there. */
  datatype SlotMark = Took | Left | Elsewhere

  function SlotMarkOf(n: Net, ev: Event, k: nat): SlotMark {
    if !Enabled(n, ev) || ev.Accepted? then Elsewhere
    else if Takes(n, ev.e) && FirstFree(n.st.slots) == k then Took
    else if Closes(n, ev.e) && k < |n.st.slots| && n.st.slots[k].Some? && n.st.slots[k].value.clientFd == ev.e.fd then Left
    else Elsewhere
  }

  function SlotMarks(evs: seq<Event>, k: nat): (ms: seq<SlotMark>)
    ensures |ms| == |evs|
  {
    if evs == [] then []
    else
      var fs := evs[..|evs| - 1];
      SlotMarks(fs, k) + [SlotMarkOf(NetRun(fs), evs[|evs| - 1], k)]
  }

  predicate ClientWaits(n: Net, k: nat) {
    k < |n.st.slots| && n.st.slots[k].Some? && n.st.slots[k].value.clientFd >= 0
  }

  /** The connection that asked is open, under the number the entry has for it. */
  predicate AskerThere(n: Net, k: nat) {
    && ClientWaits(n, k) && k in n.askers && n.st.slots[k].value.clientFd in n.open
    && n.open[n.st.slots[k].value.clientFd] == n.askers[k]
  }

  lemma AskerMoved(n: Net, e: Input, o: Outcome, took: bool, k: nat)
    requires NetInv(n) && Enabled(n, Did(e)) && (took ==> e.LineIn?)
    requires SlotAfter(n.st.slots, e, o, took, k) && ClientWaits(Moved(n, e, o, took), k)
    ensures var now := took && FirstFree(n.st.slots) == k;
            && (!now ==> ClientWaits(n, k) && n.st.slots[k] == o.st.slots[k])
            && (AskerThere(Moved(n, e, o, took), k) <==>
                  now || (!(Shuts(e, o) && n.st.slots[k].value.clientFd == e.fd) && AskerThere(n, k)))
  {
    var n' := Moved(n, e, o, took);
    if took && FirstFree(n.st.slots) == k {
      assert n'.askers == n.askers[k := n.open[e.fd]];
    } else {
      assert k in n.askers && n'.askers[k] == n.askers[k];
    }
  }

  lemma AskerStep(n: Net, ev: Event, k: nat)
    requires NetInv(n) && ClientWaits(NetStep(n, ev), k)
    ensures var m := SlotMarkOf(n, ev, k);
            && (m != Took ==> ClientWaits(n, k))
            && (AskerThere(NetStep(n, ev), k) <==> m == Took || (m == Elsewhere && AskerThere(n, k)))
  {
    if Enabled(n, ev) {
      if ev.Did? {
        AskerInput(n, ev.e, k);
      } else {
        AskerAccept(n, ev.fd, k);
      }
    }
  }

  lemma AskerAccept(n: Net, fd: int, k: nat)
    requires NetInv(n) && ClientWaits(n, k) && Enabled(n, Accepted(fd))
    ensures AskerThere(NetStep(n, Accepted(fd)), k) <==> AskerThere(n, k)
  {
  }

  lemma AskerInput(n: Net, e: Input, k: nat)
    requires NetInv(n) && Enabled(n, Did(e)) && ClientWaits(NetStep(n, Did(e)), k)
    ensures var m := SlotMarkOf(n, Did(e), k);
            && (m != Took ==> ClientWaits(n, k))
            && (AskerThere(NetStep(n, Did(e)), k) <==> m == Took || (m == Elsewhere && AskerThere(n, k)))
  {
    SlotCount(n, e);
    SlotsAfter(n, e, k);
    AskerMoved(n, e, Happened(n, e), Takes(n, e), k);
  }

  lemma SlotCount(n: Net, e: Input)
    ensures |Happened(n, e).st.slots| == |n.st.slots|
  {
    StepMoves(n.st, Attempted(n, e));
  }

  /** In every run from the start, for every waiting entry: the number the entry has for its client is the number of the
      connection that asked if and only if no connection under that number was closed since. */
  lemma {:induction false} AskerThereIff(evs: seq<Event>, k: nat)
    ensures ClientWaits(NetRun(evs), k) ==> (AskerThere(NetRun(evs), k) <==> LastIs(SlotMarks(evs, k), Took, Elsewhere))
  {
    if evs == [] {
      assert k < |INIT.slots| ==> INIT.slots[k].None?;
    } else if ClientWaits(NetRun(evs), k) {
      var fs, ev := evs[..|evs| - 1], evs[|evs| - 1];
      InvHolds(fs);
      AskerStep(NetRun(fs), ev, k);
      LastIsSnoc(SlotMarks(fs, k), SlotMarkOf(NetRun(fs), ev, k), Took, Elsewhere);
      AskerThereIff(fs, k);
    }
  }

  /** So a response that is passed on reaches the connection that asked if and only if no connection under the
      client's number was closed since it asked; else it reaches the connection that was given the number later. */
  lemma AnswerReachesAsker(evs: seq<Event>, e: Input, l: Link, k: nat)
    requires var n := NetRun(evs);
             Enabled(n, Did(e)) && e.LineIn? && e.fd == LinkFd(n.st, l) && AnswerFor(n, e, k)
    ensures var n := NetRun(evs);
            var sent := Happened(n, e).sent;
            && |sent| == 1 && sent[0].fd in n.open && k in n.askers
            && (n.open[sent[0].fd] == n.askers[k] <==> LastIs(SlotMarks(evs, k), Took, Elsewhere))
  {
    InvHolds(evs);
    HolderAnswers(NetRun(evs), e, l, k);
    AskerThereIff(evs, k);
  }
}
