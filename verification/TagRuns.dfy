/** The requests with one tag, over runs of equipmentd: taken, answered, timed out; what becomes of the responses. */
module TagRuns {
  import opened Wrappers
  import opened Messages
  import opened Codec
  import opened Tracker
  import opened Daemon
  import opened DaemonRuns
  import Router

  predicate HasTag(p: Slot, t: Tag) {
    HasKey(p, t.seqNo, t.dev)
  }

  /** The live entries with the tag. */
  function Held(s: seq<Slot>, t: Tag): nat {
    if s == [] then 0 else AsNat(HasTag(s[0], t)) + Held(s[1..], t)
  }

  lemma {:induction false} HeldUpdate(s: seq<Slot>, i: nat, v: Slot, t: Tag)
    requires i < |s|
    ensures Held(s[i := v], t) + AsNat(HasTag(s[i], t)) == Held(s, t) + AsNat(HasTag(v, t))
  {
    if i == 0 {
      assert s[i := v][1..] == s[1..];
    } else {
      assert s[i := v][1..] == s[1..][i - 1 := v];
      HeldUpdate(s[1..], i - 1, v, t);
    }
  }

  lemma {:induction false} HeldSwept(s: seq<Slot>, now: int, t: Tag)
    ensures Held(Swept(s, now), t) + Held(Dropped(s, now), t) == Held(s, t)
  {
    if s != [] {
      assert Swept(s, now)[1..] == Swept(s[1..], now) && Dropped(s, now)[1..] == Dropped(s[1..], now);
      HeldSwept(s[1..], now, t);
    }
  }

  lemma {:induction false} HeldNone(s: seq<Slot>, t: Tag)
    ensures Held(s, t) == 0 <==> FirstMatch(s, t.seqNo, t.dev) == |s|
  {
    if s != [] {
      HeldNone(s[1..], t);
    }
  }

  // ----- what a step does to the tag

  predicate TakesTag(st: State, e: Input, t: Tag) {
    MoveOf(st, e).Insert? && MoveOf(st, e).p.seqNo == t.seqNo && MoveOf(st, e).p.dev == t.dev
  }

  predicate FreesTag(st: State, e: Input, t: Tag) {
    var mv := MoveOf(st, e);
    mv.Release? && mv.i < |st.slots| && HasTag(st.slots[mv.i], t)
  }

  function DropsTag(st: State, e: Input, t: Tag): nat {
    if e.SweepIn? then Held(Dropped(st.slots, e.now), t) else 0
  }

  lemma HeldMove(s: seq<Slot>, mv: TableMove, s': seq<Slot>, l: Ledger, t: Tag)
    requires Effect(s, mv, s', l)
    ensures Held(s', t) + AsNat(mv.Release? && HasTag(s[mv.i], t)) + (if mv.Clear? then Held(Dropped(s, mv.now), t) else 0)
         == Held(s, t) + AsNat(mv.Insert? && HasTag(Some(mv.p), t))
  {
    match mv
    case Release(i) => HeldUpdate(s, i, None, t);
    case Insert(p) => HeldUpdate(s, FirstFree(s), Some(p), t);
    case Clear(now) => HeldSwept(s, now, t);
    case _ =>
  }

  lemma ClearIsSweep(st: State, e: Input)
    ensures MoveOf(st, e).Clear? <==> e.SweepIn?
    ensures e.SweepIn? ==> MoveOf(st, e) == Clear(e.now)
  {
  }

  lemma HeldStep(st: State, e: Input, t: Tag)
    ensures Held(Step(st, e).st.slots, t) + AsNat(FreesTag(st, e, t)) + DropsTag(st, e, t)
         == Held(st.slots, t) + AsNat(TakesTag(st, e, t))
  {
    StepMoves(st, e);
    ClearIsSweep(st, e);
    HeldMove(st.slots, MoveOf(st, e), Step(st, e).st.slots, Step(st, e).ledger, t);
  }

  // ----- what a step writes

  /** The request an accepted input sends to its controller. */
  function InsertMessage(st: State, e: Input): Message
    requires MoveOf(st, e).Insert?
  {
    var p := MoveOf(st, e).p;
    if e.LineIn? && Parse(e.line).Some? then Parse(e.line).value else StartMessage(p.dev, p.seqNo)
  }

  lemma LineInsertSends(st: State, e: Input, m: Message)
    requires e.LineIn? && Parse(e.line) == Some(m) && MoveOf(st, e).Insert?
    ensures var p := MoveOf(st, e).p;
            && m.role == Req && Router.IsDeviceCommand(m.typ) && Tagged(m, Tag(p.seqNo, p.dev))
            && p.clientFd == e.fd
            && Step(st, e).sent == [Packet(Router.TargetFd(st.pmcFd, st.tmcFd, p.dev), Render(m))]
            && Router.TargetFd(st.pmcFd, st.tmcFd, p.dev) >= 0 && Step(st, e).ret >= 0
  {
    InsertedMove(st, e.fd, m, e.now, e.wr);
    assert HandleMessage(st, e.fd, Some(m), e.now, e.wr) == Routing(st, e.fd, m, e.now, e.wr);
  }

  lemma SchedulerInsertSends(st: State, e: Input)
    requires e.SchedulerIn? && MoveOf(st, e).Insert?
    ensures var p := MoveOf(st, e).p;
            && p.clientFd == -1 && p.dev in {1, 2} && st.pmcFd >= 0
            && Step(st, e).sent == [Packet(st.pmcFd, Render(StartMessage(p.dev, p.seqNo)))]
  {
  }

  predicate Sound(m: Message) {
    Storable(m) && Known(m) && TextBlankFree(m)
  }

  /** An accepted request goes, under its own tag, to the controller of its device, and nothing else is written. */
  lemma InsertSends(st: State, e: Input)
    requires MoveOf(st, e).Insert?
    ensures var p := MoveOf(st, e).p;
            var m := InsertMessage(st, e);
            && m.role == Req && Router.IsDeviceCommand(m.typ) && Tagged(m, Tag(p.seqNo, p.dev)) && Sound(m)
            && (p.clientFd == -1 || (e.LineIn? && p.clientFd == e.fd))
            && Step(st, e).sent == [Packet(Router.TargetFd(st.pmcFd, st.tmcFd, p.dev), Render(m))]
            && Router.TargetFd(st.pmcFd, st.tmcFd, p.dev) >= 0
  {
    InsertTime(st, e);
    if e.LineIn? {
      LineInsertSends(st, e, Parse(e.line).value);
      ParseRange(e.line);
    } else {
      SchedulerInsertSends(st, e);
    }
  }

  lemma NonLineSends(st: State, e: Input)
    requires !e.LineIn? && !MoveOf(st, e).Insert?
    ensures Step(st, e).sent == []
  {
  }

  /** A line that is neither accepted nor a response for a live entry is answered to its sender, if at all. */
  lemma MessageSends(st: State, fd: int, m: Message, now: int, wr: bool)
    requires var mv := MessageMove(st, fd, m, now, wr); !mv.Insert? && !mv.Release?
    ensures var o := HandleMessage(st, fd, Some(m), now, wr);
            && (o.sent == [] || (|o.sent| == 1 && o.sent[0].fd == fd))
            && (m.role != Req ==> o.sent == [])
            && (IsAttach(m) && o.sent != [] ==> o.sent == [Packet(fd, Render(OkReply(m)))])
  {
  }

  lemma QuietLine(st: State, e: Input, m: Message)
    requires e.LineIn? && Parse(e.line) == Some(m) && !MoveOf(st, e).Insert? && !MoveOf(st, e).Release?
    ensures var o := Step(st, e);
            && (o.sent == [] || (|o.sent| == 1 && o.sent[0].fd == e.fd))
            && (m.role != Req ==> o.sent == [])
            && (IsAttach(m) && o.sent != [] ==> o.sent == [Packet(e.fd, Render(OkReply(m)))])
  {
    MessageSends(st, e.fd, m, e.now, e.wr);
  }

  lemma BadLine(st: State, e: Input)
    requires e.LineIn? && Parse(e.line) == None
    ensures MoveOf(st, e) == Keep
    ensures Step(st, e).sent == [] || Step(st, e).sent == [Packet(e.fd, Render(Router.PARSE_ERROR))]
  {
  }

  /** A response that frees an entry is written to the entry's client, if it has one. */
  lemma ReleaseSends(st: State, e: Input)
    requires MoveOf(st, e).Release?
    ensures e.LineIn? && Parse(e.line).Some? && MoveOf(st, e).i < |st.slots| && st.slots[MoveOf(st, e).i].Some?
    ensures var m := Parse(e.line).value;
            var p := st.slots[MoveOf(st, e).i].value;
            && IsAnswer(m, Tag(p.seqNo, p.dev)) && IsController(st, e.fd)
            && Step(st, e).sent == (if p.clientFd < 0 then [] else [Packet(p.clientFd, Render(m))])
  {
    if e.LineIn? {
      var parsed := Parse(e.line);
      if parsed.Some? {
        ReleaseReturns(st, e.fd, parsed.value, e.now, e.wr);
      }
    }
  }

  lemma ReleaseReturns(st: State, fd: int, m: Message, now: int, wr: bool)
    requires MessageMove(st, fd, m, now, wr).Release?
    ensures var i := AnsweredSlot(st, fd, m);
            && i < |st.slots| && MessageMove(st, fd, m, now, wr) == Release(i)
            && HandleMessage(st, fd, Some(m), now, wr) == Answer(st, i, m, wr) && Answer(st, i, m, wr).ret == 1
  {
  }

  // ----- tallies over runs

  /** For one tag: accepted requests, answered ones, timed-out ones, those whose line the controller cannot read;
      and responses that came too late, or whose relay failed. */
  datatype Tally = Tally(asked: nat, answered: nat, expired: nat, unread: nat, stray: nat, failed: nat)

  const NOTHING := Tally(0, 0, 0, 0, 0, 0)

  function Plus(a: Tally, b: Tally): Tally {
    Tally(a.asked + b.asked, a.answered + b.answered, a.expired + b.expired,
          a.unread + b.unread, a.stray + b.stray, a.failed + b.failed)
  }

  /** The response comes from one of the two controllers' connections. */
  predicate AnswerFrom(e: Input, ctl: set<int>, t: Tag) {
    e.LineIn? && e.fd in ctl && Parse(e.line).Some? && IsAnswer(Parse(e.line).value, t)
  }

  function Counted(st: State, e: Input, ctl: set<int>, t: Tag): Tally {
    var frees := FreesTag(st, e, t);
    var here := AnswerFrom(e, ctl, t) && !frees;
    var known := FirstMatch(st.slots, t.seqNo, t.dev) < |st.slots|;
    Tally(AsNat(TakesTag(st, e, t)), AsNat(frees), DropsTag(st, e, t),
          AsNat(TakesTag(st, e, t) && Parse(Render(InsertMessage(st, e))).None?),
          AsNat(here && !known), AsNat(here && known))
  }

  function TallyOf(st: State, es: seq<Input>, ctl: set<int>, t: Tag): Tally
    decreases |es|
  {
    if es == [] then NOTHING else Plus(Counted(st, es[0], ctl, t), TallyOf(Step(st, es[0]).st, es[1..], ctl, t))
  }

  lemma PlusAssoc(a: Tally, b: Tally, c: Tally)
    ensures Plus(Plus(a, b), c) == Plus(a, Plus(b, c)) && Plus(a, NOTHING) == a == Plus(NOTHING, a)
  {
  }

  lemma {:induction false} TallySnoc(st: State, es: seq<Input>, e: Input, ctl: set<int>, t: Tag)
    ensures TallyOf(st, es + [e], ctl, t) == Plus(TallyOf(st, es, ctl, t), Counted(StateAfter(st, es), e, ctl, t))
    decreases |es|
  {
    if es == [] {
      assert [] + [e] == [e] && [e][1..] == [];
      PlusAssoc(Counted(st, e, ctl, t), NOTHING, NOTHING);
    } else {
      var st' := Step(st, es[0]).st;
      assert (es + [e])[1..] == es[1..] + [e];
      TallySnoc(st', es[1..], e, ctl, t);
      PlusAssoc(Counted(st, es[0], ctl, t), TallyOf(st', es[1..], ctl, t), Counted(StateAfter(st', es[1..]), e, ctl, t));
    }
  }

  /** In every run: the live entries with the tag are those taken less those answered and timed out. */
  lemma {:induction false} HeldRun(st: State, es: seq<Input>, ctl: set<int>, t: Tag)
    ensures var y := TallyOf(st, es, ctl, t);
            Held(StateAfter(st, es).slots, t) + y.answered + y.expired == Held(st.slots, t) + y.asked
    decreases |es|
  {
    if es != [] {
      HeldRun(Step(st, es[0]).st, es[1..], ctl, t);
      HeldStep(st, es[0], t);
    }
  }

  // ----- a tag that only one client uses

  predicate OwnedStep(st: State, e: Input, c: int, t: Tag) {
    TakesTag(st, e, t) ==> MoveOf(st, e).p.clientFd == c
  }

  /** All accepted requests with the tag are client c's. */
  predicate Owned(st: State, es: seq<Input>, c: int, t: Tag)
    decreases |es|
  {
    es != [] ==> OwnedStep(st, es[0], c, t) && Owned(Step(st, es[0]).st, es[1..], c, t)
  }

  predicate SlotsOwned(s: seq<Slot>, c: int, t: Tag) {
    forall i | 0 <= i < |s| && HasTag(s[i], t) :: s[i].value.clientFd == c
  }

  lemma SlotsOwnedStep(st: State, e: Input, c: int, t: Tag)
    requires SlotsOwned(st.slots, c, t) && OwnedStep(st, e, c, t)
    ensures SlotsOwned(Step(st, e).st.slots, c, t)
  {
    StepMoves(st, e);
  }

  /** With one owner, a freed entry with the tag and a response handed to the owner are the same event; nobody
      else is handed one. */
  lemma RelayStep(st: State, e: Input, c: int, d: int, t: Tag)
    requires SlotsOwned(st.slots, c, t) && c >= 0
    ensures Answers(st, e, d, t.seqNo, t.dev) <==> FreesTag(st, e, t) && d == c
  {
    if MoveOf(st, e).Release? {
      ReleaseSends(st, e);
    }
    if e.LineIn? && Parse(e.line).Some? {
      RelayLine(st, e, Parse(e.line).value, d, t);
    }
  }

  lemma RelayLine(st: State, e: Input, m: Message, d: int, t: Tag)
    requires e.LineIn? && Parse(e.line) == Some(m)
    ensures Answers(st, e, d, t.seqNo, t.dev) ==> MoveOf(st, e).Release?
  {
    if Answers(st, e, d, t.seqNo, t.dev) {
      AnsweredMove(st, e.fd, m, e.now, e.wr);
    }
  }

  /** In a run in which only client c uses the tag: c is handed exactly one response per answered request, and no
      other client is handed any. */
  lemma {:induction false} OwnerIsAnswered(st: State, es: seq<Input>, c: int, d: int, ctl: set<int>, t: Tag)
    requires SlotsOwned(st.slots, c, t) && Owned(st, es, c, t) && c >= 0
    ensures AnswerCount(st, es, d, t.seqNo, t.dev) == if d == c then TallyOf(st, es, ctl, t).answered else 0
    decreases |es|
  {
    if es != [] {
      SlotsOwnedStep(st, es[0], c, t);
      RelayStep(st, es[0], c, d, t);
      OwnerIsAnswered(Step(st, es[0]).st, es[1..], c, d, ctl, t);
    }
  }

  // ----- a run that is over before the tag's requests can time out

  predicate TimelyStep(st: State, e: Input, since: int, t: Tag) {
    && (TakesTag(st, e, t) ==> MoveOf(st, e).p.createdMs >= since)
    && (e.SweepIn? ==> e.now <= since + 10000)
  }

  /** Requests with the tag are taken at `since` or later, and no sweep is later than 10 s after that. */
  predicate Timely(st: State, es: seq<Input>, since: int, t: Tag)
    decreases |es|
  {
    es != [] ==> TimelyStep(st, es[0], since, t) && Timely(Step(st, es[0]).st, es[1..], since, t)
  }

  predicate TakenSince(s: seq<Slot>, since: int, t: Tag) {
    forall i | 0 <= i < |s| && HasTag(s[i], t) :: s[i].value.createdMs >= since
  }

  lemma {:induction false} NoneDropped(s: seq<Slot>, now: int, since: int, t: Tag)
    requires TakenSince(s, since, t) && now <= since + 10000
    ensures Held(Dropped(s, now), t) == 0
  {
    if s != [] {
      assert Dropped(s, now)[1..] == Dropped(s[1..], now);
      assert forall i | 0 <= i < |s[1..]| :: s[1..][i] == s[i + 1];
      NoneDropped(s[1..], now, since, t);
    }
  }

  lemma TakenSinceMove(s: seq<Slot>, mv: TableMove, s': seq<Slot>, l: Ledger, since: int, t: Tag)
    requires Effect(s, mv, s', l) && TakenSince(s, since, t)
    requires mv.Insert? && HasTag(Some(mv.p), t) ==> mv.p.createdMs >= since
    ensures TakenSince(s', since, t)
  {
    assert |s'| == |s| && forall i | 0 <= i < |s| && HasTag(s'[i], t) :: s'[i] == s[i] || (mv.Insert? && s'[i].value == mv.p);
  }

  lemma TakenSinceStep(st: State, e: Input, since: int, t: Tag)
    requires TakenSince(st.slots, since, t) && TimelyStep(st, e, since, t)
    ensures TakenSince(Step(st, e).st.slots, since, t) && DropsTag(st, e, t) == 0
  {
    StepMoves(st, e);
    TakenSinceMove(st.slots, MoveOf(st, e), Step(st, e).st.slots, Step(st, e).ledger, since, t);
    if e.SweepIn? {
      NoneDropped(st.slots, e.now, since, t);
    }
  }

  /** No request with the tag times out in such a run. */
  lemma {:induction false} NoneExpires(st: State, es: seq<Input>, since: int, ctl: set<int>, t: Tag)
    requires TakenSince(st.slots, since, t) && Timely(st, es, since, t)
    ensures TallyOf(st, es, ctl, t).expired == 0
    decreases |es|
  {
    if es != [] {
      TakenSinceStep(st, es[0], since, t);
      NoneExpires(Step(st, es[0]).st, es[1..], since, ctl, t);
    }
  }
}
