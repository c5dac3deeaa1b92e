/** The PMC and its simulators, each joined to it by two lossless FIFO channels. */
module Cluster {
  import opened Wrappers
  import opened Ints
  import M = Messages
  import opened Text
  import opened Fsm
  import opened ProcessModel
  import opened Sim
  import opened AuxLink
  import P = Pmc

  /** One simulator and its connection. */
  datatype Line = Line(
    node: Node,
    up: seq<Message>,        // simulator to PMC
    down: seq<Message>,      // PMC to simulator
    conn: P.Peer,            // the PMC's entry
    past: seq<SimState>)     // history: the states its iterations ended in

  /** The lines are in the order of the PMC's list, the newest first. */
  datatype System = System(
    lines: seq<Line>,
    toEqd: seq<Message>)     // what the PMC sends to equipmentd

  function Opened(devId: u32): Line {
    Line(Booted(devId), [RegisterEvt(devId), StatusEvt(devId, Idle)], [], P.UNREGISTERED, [])
  }

  function Init(devs: seq<u32>): System {
    System(seq(|devs|, i requires 0 <= i < |devs| => Opened(devs[i])), [])
  }

  datatype Action =
    | SimIterates(i: nat, k: nat)                  // simulator i reads its first k messages, ticks, reports
    | PmcReads(i: nat)                             // takes one message from simulator i
    | EqdAsks(req: Message, note: Option<string>, aux: Option<AuxError>) // a message of equipmentd, and what the aux device makes of it

  predicate Enabled(s: System, a: Action) {
    match a
    case SimIterates(i, k) => i < |s.lines| && k <= |s.lines[i].down|
    case PmcReads(i) => i < |s.lines| && s.lines[i].up != []
    case EqdAsks(_, _, _) => true
  }

  function Iterated(l: Line, k: nat): Line
    requires k <= |l.down|
  {
    var n' := NextNode(l.node, l.down[..k]);
    l.(node := n', up := l.up + Reports(l.node, l.down[..k]), down := l.down[k..], past := l.past + [n'.last])
  }

  function LineRead(l: Line): Line
    requires l.up != []
  {
    l.(up := l.up[1..], conn := P.PeerAfter(l.conn, l.up[0]))
  }

  function PmcRead(s: System, i: nat): System
    requires i < |s.lines| && s.lines[i].up != []
  {
    var l := s.lines[i];
    System(s.lines[i := LineRead(l)], if P.Reports(l.conn, l.up[0]) then s.toEqd + [l.up[0]] else s.toEqd)
  }

  /** The newest line that serves the message's device; |lines| if none does. */
  function TargetLine(s: System, m: Message): (i: nat)
    ensures i <= |s.lines|
    ensures i < |s.lines| ==> m.dev.Some? && P.Serves(s.lines[i].conn, ToI32(m.dev.value))
  {
    if m.dev.None? then |s.lines|
    else P.FirstServing(seq(|s.lines|, i requires 0 <= i < |s.lines| => s.lines[i].conn), ToI32(m.dev.value))
  }

  function TargetConn(s: System, m: Message): Option<P.Peer> {
    var i := TargetLine(s, m);
    if i < |s.lines| then Some(s.lines[i].conn) else None
  }

  /** A message of equipmentd; REGISTER is skipped. */
  function Asked(s: System, m: Message, note: Option<string>, aux: Option<AuxError>): System {
    if m.typ == M.Register then s
    else
      match P.VerdictOn(TargetConn(s, m), m, note, aux)
      case ToAsker(r) => s.(toEqd := s.toEqd + [r])
      case ToSim =>
        var i := TargetLine(s, m);
        s.(lines := s.lines[i := s.lines[i].(down := s.lines[i].down + [m])])
  }

  /** An action that is not enabled does nothing. */
  function Step(s: System, a: Action): System {
    if !Enabled(s, a) then s
    else
      match a
      case SimIterates(i, k) => s.(lines := s.lines[i := Iterated(s.lines[i], k)])
      case PmcReads(i) => PmcRead(s, i)
      case EqdAsks(m, note, aux) => Asked(s, m, note, aux)
  }

  function Run(devs: seq<u32>, acts: seq<Action>): System {
    if acts == [] then Init(devs) else Step(Run(devs, acts[..|acts| - 1]), acts[|acts| - 1])
  }

  // ----- the invariant of cache and channel

  /** What the cache will be once everything in the channel has been read. */
  function Eventually(cache: Option<string>, up: seq<Message>): Option<string>
    decreases |up|
  {
    if up == [] then cache else Eventually(P.Cache(cache, up[0]), up[1..])
  }

  predicate IsReport(m: Message) {
    m.typ == M.Status && m.state.Some?
  }

  predicate ReportsOk(up: seq<Message>) {
    forall m | m in up && IsReport(m) :: exists s: SimState | Reportable(s) :: m.state == Some(StateText(s))
  }

  predicate CacheOk(cache: Option<string>) {
    cache.Some? ==> exists x: SimState | Reportable(x) :: cache == Some(StateText(x))
  }

  /** Requests on their way to a simulator are for it, and none is a REGISTER; no response is one either. */
  predicate ChannelsOk(l: Line) {
    && (forall m | m in l.down :: m.dev == Some(l.node.devId) && m.typ != M.Register)
    && (forall m | m in l.up && m.role == M.Resp :: m.typ != M.Register)
  }

  predicate ConnOk(l: Line) {
    if l.conn.registered then P.Serves(l.conn, ToI32(l.node.devId))
    else l.conn == P.UNREGISTERED && l.up != [] && l.up[0] == RegisterEvt(l.node.devId)
  }

  predicate HistoryOk(l: Line) {
    && l.node.model == RunModel(AMBIENT, l.past) && (forall x | x in l.past :: Reportable(x))
    && l.node.last == if l.past == [] then Idle else l.past[|l.past| - 1]
  }

  predicate LineInv(l: Line) {
    && l.node.last == l.node.fsm.state && Reportable(l.node.last) && WellTicked(l.node.fsm)
    && Eventually(l.conn.cached, l.up) == Some(StateText(l.node.last))
    && ReportsOk(l.up) && CacheOk(l.conn.cached)
    && HistoryOk(l) && ChannelsOk(l) && ConnOk(l)
  }

  predicate Inv(s: System) {
    forall i | 0 <= i < |s.lines| :: LineInv(s.lines[i])
  }

  lemma TextFits(x: SimState)
    ensures Take(StateText(x), M.STATE_MAX) == StateText(x)
  {
  }

  lemma {:induction false} EventuallyAppend(cache: Option<string>, a: seq<Message>, b: seq<Message>)
    ensures Eventually(cache, a + b) == Eventually(Eventually(cache, a), b)
    decreases |a|
  {
    if a == [] {
      assert a + b == b;
    } else {
      assert (a + b)[1..] == a[1..] + b;
      EventuallyAppend(P.Cache(cache, a[0]), a[1..], b);
    }
  }

  lemma {:induction false} QuietMessages(cache: Option<string>, ms: seq<Message>)
    requires forall m | m in ms :: !IsReport(m)
    ensures Eventually(cache, ms) == cache
    decreases |ms|
  {
    if ms != [] {
      assert ms[0] in ms;
      QuietMessages(cache, ms[1..]);
    }
  }

  /** Commands leave a machine that a tick brings into a reportable state; responses repeat no REGISTER. */
  lemma {:induction false} BatchKeeps(devId: u32, f: Fsm, ins: seq<Message>)
    requires WellTicked(f)
    ensures var b := Batch(devId, f, ins);
            && WellTicked(b.fsm)
            && (forall m | m in b.outs :: !IsReport(m))
            && ((forall m | m in ins :: m.typ != M.Register) ==> forall m | m in b.outs :: m.typ != M.Register)
  {
    if ins != [] {
      var n := |ins| - 1;
      assert ins[n] in ins && forall m | m in ins[..n] :: m in ins;
      BatchKeeps(devId, f, ins[..n]);
    }
  }

  lemma TickReports(f: Fsm)
    requires WellTicked(f)
    ensures Reportable(Ticked(f).state) && WellTicked(Ticked(f))
  {
  }

  lemma IterationReports(n: Node, ins: seq<Message>, cache: Option<string>)
    requires WellTicked(n.fsm) && cache == Some(StateText(n.last))
    ensures var n' := NextNode(n, ins);
            && Reportable(n'.last) && WellTicked(n'.fsm)
            && Eventually(cache, Reports(n, ins)) == Some(StateText(n'.last))
            && ReportsOk(Reports(n, ins))
  {
    BatchKeeps(n.devId, n.fsm, ins);
    var b := Batch(n.devId, n.fsm, ins);
    TickReports(b.fsm);
    var n' := NextNode(n, ins);
    var change := if n'.last != n.last then [StatusEvt(n.devId, n'.last)] else [];
    var telemetry := [TelemetryEvt(n.devId, n'.model)];
    QuietMessages(cache, b.outs);
    EventuallyAppend(cache, b.outs + change, telemetry);
    EventuallyAppend(cache, b.outs, change);
    TextFits(n'.last);
    QuietMessages(Eventually(cache, b.outs + change), telemetry);
    if change != [] {
      assert change[1..] == [];
    }
  }

  lemma ReportsOkConcat(a: seq<Message>, b: seq<Message>)
    requires ReportsOk(a) && ReportsOk(b)
    ensures ReportsOk(a + b)
  {
  }

  lemma ChannelsIterated(l: Line, k: nat)
    requires ChannelsOk(l) && WellTicked(l.node.fsm) && k <= |l.down|
    ensures ChannelsOk(Iterated(l, k))
  {
    var ins := l.down[..k];
    assert forall m | m in ins :: m in l.down;
    BatchKeeps(l.node.devId, l.node.fsm, ins);
  }

  lemma HistoryIterated(l: Line, k: nat)
    requires HistoryOk(l) && k <= |l.down| && Reportable(NextNode(l.node, l.down[..k]).last)
    ensures HistoryOk(Iterated(l, k))
  {
    var x := NextNode(l.node, l.down[..k]).last;
    assert (l.past + [x])[..|l.past|] == l.past;
  }

  lemma InvIterated(l: Line, k: nat)
    requires LineInv(l) && k <= |l.down|
    ensures LineInv(Iterated(l, k))
  {
    var ins := l.down[..k];
    var c := Eventually(l.conn.cached, l.up);
    IterationReports(l.node, ins, c);
    EventuallyAppend(l.conn.cached, l.up, Reports(l.node, ins));
    ReportsOkConcat(l.up, Reports(l.node, ins));
    ChannelsIterated(l, k);
    HistoryIterated(l, k);
  }

  lemma InvLineRead(l: Line)
    requires LineInv(l) && l.up != []
    ensures LineInv(LineRead(l))
  {
    var m := l.up[0];
    assert m in l.up && forall x | x in l.up[1..] :: x in l.up;
    if IsReport(m) {
      var x: SimState :| Reportable(x) && m.state == Some(StateText(x));
      TextFits(x);
    }
  }

  lemma ToI32Injective(a: u32, b: u32)
    requires ToI32(a) == ToI32(b)
    ensures a == b
  {
  }

  lemma InvAsked(s: System, m: Message, note: Option<string>, aux: Option<AuxError>)
    requires Inv(s)
    ensures Inv(Asked(s, m, note, aux))
  {
    var i := TargetLine(s, m);
    if m.typ != M.Register && P.VerdictOn(TargetConn(s, m), m, note, aux).ToSim? {
      ToI32Injective(m.dev.value, s.lines[i].node.devId);
    }
  }

  lemma InvStep(s: System, a: Action)
    requires Inv(s)
    ensures Inv(Step(s, a)) && |Step(s, a).lines| == |s.lines|
  {
    if Enabled(s, a) {
      match a
      case SimIterates(i, k) => InvIterated(s.lines[i], k);
      case PmcReads(i) => InvLineRead(s.lines[i]);
      case EqdAsks(m, note, aux) => InvAsked(s, m, note, aux);
    }
  }

  lemma InitHolds(devs: seq<u32>)
    ensures Inv(Init(devs))
  {
    forall i | 0 <= i < |devs|
      ensures LineInv(Opened(devs[i]))
    {
      OpenedHolds(devs[i]);
    }
  }

  lemma OpenedHolds(devId: u32)
    ensures LineInv(Opened(devId))
  {
    var a, b := RegisterEvt(devId), StatusEvt(devId, Idle);
    assert [a, b][1..] == [b] && [b][1..] == [];
    TextFits(Idle);
    assert Eventually(None, [a, b]) == Eventually(P.Cache(None, a), [b]) == Eventually(P.Cache(None, b), []);
  }

  /** In every run, for every simulator: its cache, once the channel is read, is its state; only IDLE,
      PROCESSING, DONE and FAULT are ever reported or cached; requests reach only the device they are for. */
  lemma {:induction false} CacheFollowsSimulator(devs: seq<u32>, acts: seq<Action>)
    ensures Inv(Run(devs, acts)) && |Run(devs, acts).lines| == |devs|
  {
    if acts == [] {
      InitHolds(devs);
    } else {
      CacheFollowsSimulator(devs, acts[..|acts| - 1]);
      InvStep(Run(devs, acts[..|acts| - 1]), acts[|acts| - 1]);
    }
  }

  /** In every run the chamber of every simulator stays inside the model's envelope, no warmer than 1.5 degrees
      per iteration it spent processing, and heater and pump run exactly while it reports PROCESSING. */
  lemma ChamberEnvelope(devs: seq<u32>, acts: seq<Action>, i: nat)
    requires i < |devs|
    ensures i < |Run(devs, acts).lines|
    ensures var l := Run(devs, acts).lines[i];
            && InEnvelope(l.node.model)
            && l.node.model.temp <= 25.0 + 1.5 * ProcessingCount(l.past) as real
            && (l.node.model.heaterOn <==> l.node.last == Processing)
            && (l.node.model.pumpOn <==> l.node.last == Processing)
  {
    CacheFollowsSimulator(devs, acts);
    Envelope(Run(devs, acts).lines[i].past);
  }

  // ----- what a status request is told

  lemma StateNeverUnknown(x: SimState)
    ensures StateText(x) != "UNKNOWN"
  {
    assert |StateText(x)| == 7 ==> StateText(x)[0] in {'B', 'D'};
  }

  /** In every run a status request for a registered simulator is answered at once, under its key, with ok=1 and the state
      the simulator reported last among the reports read so far; with UNKNOWN exactly if none was read yet. */
  lemma StatusFromCache(devs: seq<u32>, acts: seq<Action>, req: Message, note: Option<string>, aux: Option<AuxError>)
    requires TargetLine(Run(devs, acts), req) < |Run(devs, acts).lines| && req.typ == M.Status
    ensures var s := Run(devs, acts);
            var s' := Asked(s, req, note, aux);
            var cached := s.lines[TargetLine(s, req)].conn.cached;
            && s'.lines == s.lines && |s'.toEqd| == |s.toEqd| + 1 && s'.toEqd[..|s.toEqd|] == s.toEqd
            && var r := s'.toEqd[|s.toEqd|];
            && r.role == M.Resp && r.typ == M.Status && r.dev == req.dev && r.seqNo == req.seqNo && r.ok == Some(1)
            && (cached.Some? ==> r.state == cached) && (r.state == Some("UNKNOWN") <==> cached == None)
  {
    var s := Run(devs, acts);
    var i := TargetLine(s, req);
    P.VerdictSays(TargetConn(s, req), req, note, aux);
    CacheFollowsSimulator(devs, acts);
    assert LineInv(s.lines[i]);
    if s.lines[i].conn.cached.Some? {
      var x: SimState :| Reportable(x) && s.lines[i].conn.cached == Some(StateText(x));
      TextFits(x);
      StateNeverUnknown(x);
    }
  }

  /** Once all reports of the simulator have been read, that state is the state the simulator is in. */
  lemma StatusIsTrue(devs: seq<u32>, acts: seq<Action>, req: Message, note: Option<string>, aux: Option<AuxError>)
    requires TargetLine(Run(devs, acts), req) < |Run(devs, acts).lines| && req.typ == M.Status
    requires forall m | m in Run(devs, acts).lines[TargetLine(Run(devs, acts), req)].up :: !IsReport(m)
    ensures var s := Run(devs, acts);
            var r := Asked(s, req, note, aux).toEqd;
            r != [] && r[|r| - 1].ok == Some(1)
            && r[|r| - 1].state == Some(StateText(s.lines[TargetLine(s, req)].node.fsm.state))
  {
    var s := Run(devs, acts);
    StatusFromCache(devs, acts, req, note, aux);
    CacheFollowsSimulator(devs, acts);
    SettledCache(s.lines[TargetLine(s, req)]);
  }

  // ----- every request is answered exactly once

  function Answers(ms: seq<Message>, t: M.Tag): nat {
    if ms == [] then 0 else Answers(ms[..|ms| - 1], t) + M.AsNat(M.IsAnswer(ms[|ms| - 1], t))
  }

  function AskCount(ms: seq<Message>, t: M.Tag): nat {
    if ms == [] then 0 else AskCount(ms[..|ms| - 1], t) + M.AsNat(M.IsAsk(ms[|ms| - 1], t))
  }

  lemma {:induction false} AnswersAppend(a: seq<Message>, b: seq<Message>, t: M.Tag)
    ensures Answers(a + b, t) == Answers(a, t) + Answers(b, t)
  {
    if b == [] {
      assert a + b == a;
    } else {
      var n := |b| - 1;
      assert (a + b)[..|a + b| - 1] == a + b[..n];
      AnswersAppend(a, b[..n], t);
    }
  }

  lemma {:induction false} AsksAppend(a: seq<Message>, b: seq<Message>, t: M.Tag)
    ensures AskCount(a + b, t) == AskCount(a, t) + AskCount(b, t)
  {
    if b == [] {
      assert a + b == a;
    } else {
      var n := |b| - 1;
      assert (a + b)[..|a + b| - 1] == a + b[..n];
      AsksAppend(a, b[..n], t);
    }
  }

  lemma AnswersOne(m: Message, t: M.Tag)
    ensures Answers([m], t) == M.AsNat(M.IsAnswer(m, t)) && AskCount([m], t) == M.AsNat(M.IsAsk(m, t))
  {
    assert [m][..0] == [];
  }

  lemma AnswersHead(ms: seq<Message>, t: M.Tag)
    requires ms != []
    ensures Answers(ms, t) == M.AsNat(M.IsAnswer(ms[0], t)) + Answers(ms[1..], t)
  {
    assert ms == [ms[0]] + ms[1..];
    AnswersAppend([ms[0]], ms[1..], t);
    AnswersOne(ms[0], t);
  }

  /** One message: it is answered under its tag if it is a request. */
  lemma OneAnswered(devId: u32, f: Fsm, m: Message, t: M.Tag)
    requires m.dev == Some(devId) && m.typ != M.Register
    ensures Answers(Answer(devId, f, m), t) == M.AsNat(M.IsAsk(m, t))
  {
    if m.role == M.Req {
      AnswersOne(Reply(devId, m, Accepts(f.state, CmdOf(m.typ))), t);
    }
  }

  /** A simulator answers each request for it once, under the request's tag, and nothing else. */
  lemma {:induction false} BatchAnswers(devId: u32, f: Fsm, ins: seq<Message>, t: M.Tag)
    requires forall m | m in ins :: m.dev == Some(devId) && m.typ != M.Register
    ensures Answers(Batch(devId, f, ins).outs, t) == AskCount(ins, t)
  {
    if ins != [] {
      var n := |ins| - 1;
      var b := Batch(devId, f, ins[..n]);
      assert ins[n] in ins && forall m | m in ins[..n] :: m in ins;
      BatchAnswers(devId, f, ins[..n], t);
      OneAnswered(devId, b.fsm, ins[n], t);
      AnswersAppend(b.outs, Answer(devId, b.fsm, ins[n]), t);
    }
  }

  function LineFlight(l: Line, t: M.Tag): nat {
    Answers(l.up, t) + AskCount(l.down, t)
  }

  function LinesFlight(ls: seq<Line>, t: M.Tag): nat {
    if ls == [] then 0 else LineFlight(ls[0], t) + LinesFlight(ls[1..], t)
  }

  /** Requests with the tag on their way to a simulator, and responses on their way from it or to equipmentd. */
  function Flight(s: System, t: M.Tag): nat {
    Answers(s.toEqd, t) + LinesFlight(s.lines, t)
  }

  lemma {:induction false} LinesFlightUpdate(ls: seq<Line>, i: nat, l: Line, t: M.Tag)
    requires i < |ls|
    ensures LinesFlight(ls[i := l], t) + LineFlight(ls[i], t) == LinesFlight(ls, t) + LineFlight(l, t)
  {
    if i == 0 {
      assert ls[0 := l][1..] == ls[1..];
    } else {
      assert ls[i := l][1..] == ls[1..][i - 1 := l];
      LinesFlightUpdate(ls[1..], i - 1, l, t);
    }
  }

  lemma FlightIterated(l: Line, k: nat, t: M.Tag)
    requires ChannelsOk(l) && k <= |l.down|
    ensures LineFlight(Iterated(l, k), t) == LineFlight(l, t)
  {
    var ins := l.down[..k];
    assert forall m | m in ins :: m in l.down;
    ReportsAnswer(l.node, ins, t);
    FlightMoves(l.up, Reports(l.node, ins), l.down, k, t);
  }

  lemma FlightMoves(up: seq<Message>, more: seq<Message>, down: seq<Message>, k: nat, t: M.Tag)
    requires k <= |down| && Answers(more, t) == AskCount(down[..k], t)
    ensures Answers(up + more, t) + AskCount(down[k..], t) == Answers(up, t) + AskCount(down, t)
  {
    AnswersAppend(up, more, t);
    assert down == down[..k] + down[k..];
    AsksAppend(down[..k], down[k..], t);
  }

  lemma ReportsAnswer(n: Node, ins: seq<Message>, t: M.Tag)
    requires forall m | m in ins :: m.dev == Some(n.devId) && m.typ != M.Register
    ensures Answers(Reports(n, ins), t) == AskCount(ins, t)
  {
    var n' := NextNode(n, ins);
    var outs := Batch(n.devId, n.fsm, ins).outs;
    var change := if n'.last != n.last then [StatusEvt(n.devId, n'.last)] else [];
    var telemetry := TelemetryEvt(n.devId, n'.model);
    BatchAnswers(n.devId, n.fsm, ins, t);
    AnswersAppend(outs + change, [telemetry], t);
    AnswersAppend(outs, change, t);
    AnswersOne(telemetry, t);
    if change != [] {
      AnswersOne(StatusEvt(n.devId, n'.last), t);
    }
  }

  lemma FlightRead(s: System, i: nat, t: M.Tag)
    requires i < |s.lines| && s.lines[i].up != [] && LineInv(s.lines[i])
    ensures Flight(PmcRead(s, i), t) == Flight(s, t)
  {
    var l := s.lines[i];
    var m := l.up[0];
    assert m in l.up;
    AnswersHead(l.up, t);
    LinesFlightUpdate(s.lines, i, LineRead(l), t);
    AnswersAppend(s.toEqd, [m], t);
    AnswersOne(m, t);
  }

  /** A message of equipmentd is answered on the spot or on its way to its simulator, once. */
  lemma FlightAsked(s: System, m: Message, note: Option<string>, aux: Option<AuxError>, t: M.Tag)
    requires m.role == M.Req || m.typ == M.Register || m.seqNo.None?
    ensures Flight(Asked(s, m, note, aux), t) == Flight(s, t) + M.AsNat(M.IsAsk(m, t))
  {
    if m.typ != M.Register {
      match P.VerdictOn(TargetConn(s, m), m, note, aux)
      case ToAsker(r) =>
        AnswersAppend(s.toEqd, [r], t);
        AnswersOne(r, t);
      case ToSim =>
        var i := TargetLine(s, m);
        var l := s.lines[i];
        AsksAppend(l.down, [m], t);
        AnswersOne(m, t);
        LinesFlightUpdate(s.lines, i, l.(down := l.down + [m]), t);
    }
  }

  lemma FlightStep(s: System, a: Action, t: M.Tag)
    requires Inv(s)
    requires a.EqdAsks? ==> a.req.role == M.Req || a.req.typ == M.Register || a.req.seqNo.None?
    ensures Flight(Step(s, a), t) == Flight(s, t) + M.AsNat(a.EqdAsks? && M.IsAsk(a.req, t))
  {
    if Enabled(s, a) {
      match a
      case SimIterates(i, k) =>
        FlightIterated(s.lines[i], k, t);
        LinesFlightUpdate(s.lines, i, Iterated(s.lines[i], k), t);
      case PmcReads(i) => FlightRead(s, i, t);
      case EqdAsks(m, note, aux) => FlightAsked(s, m, note, aux, t);
    }
  }

  /** The requests with the tag among the actions. */
  function Asks(acts: seq<Action>, t: M.Tag): nat {
    if acts == [] then 0
    else
      var a := acts[|acts| - 1];
      Asks(acts[..|acts| - 1], t) + M.AsNat(a.EqdAsks? && M.IsAsk(a.req, t))
  }

  lemma {:induction false} NothingFlies(ls: seq<Line>, t: M.Tag)
    requires forall i | 0 <= i < |ls| :: ls[i] == Opened(ls[i].node.devId)
    ensures LinesFlight(ls, t) == 0
  {
    if ls != [] {
      var d := ls[0].node.devId;
      var a, b := RegisterEvt(d), StatusEvt(d, Idle);
      assert [a, b] == [a] + [b];
      AnswersAppend([a], [b], t);
      AnswersOne(a, t);
      AnswersOne(b, t);
      NothingFlies(ls[1..], t);
    }
  }

  /** In every run and for every tag: the requests with the tag that equipmentd asked are exactly those still
      on their way to a simulator plus the responses with the tag sent so far. Nothing is lost or doubled, and
      nothing is answered that was not asked. */
  lemma {:induction false} AnsweredExactlyOnce(devs: seq<u32>, acts: seq<Action>, t: M.Tag)
    requires forall a | a in acts && a.EqdAsks? :: a.req.role == M.Req
    ensures Flight(Run(devs, acts), t) == Asks(acts, t)
  {
    if acts == [] {
      NothingFlies(Init(devs).lines, t);
    } else {
      var n := |acts| - 1;
      var fs := acts[..n];
      assert acts[n] in acts && forall a | a in fs :: a in acts;
      AnsweredExactlyOnce(devs, fs, t);
      CacheFollowsSimulator(devs, fs);
      FlightStep(Run(devs, fs), acts[n], t);
    }
  }

  // ----- a command that passes the interlock

  /** Line i serves the request, nothing is on its way to the simulator, no report on its way to the PMC. */
  predicate Settled(s: System, i: nat, req: Message) {
    && i < |s.lines| && i == TargetLine(s, req)
    && s.lines[i].down == [] && forall m | m in s.lines[i].up :: !IsReport(m)
  }

  /** n iterations that read nothing: the command is still in the channel. */
  function Idled(l: Line, n: nat): Line {
    if n == 0 then l else Iterated(Idled(l, n - 1), 0)
  }

  lemma IdledOnce(l: Line)
    ensures Iterated(l, 0).node.fsm == Ticked(l.node.fsm)
    ensures Iterated(l, 0).down == l.down && Iterated(l, 0).node.devId == l.node.devId
  {
    assert l.down[..0] == [];
  }

  lemma {:induction false} IdledTicks(l: Line, n: nat)
    ensures Idled(l, n).node.fsm == TickedTimes(l.node.fsm, n)
    ensures Idled(l, n).down == l.down && Idled(l, n).node.devId == l.node.devId
  {
    if n > 0 {
      IdledTicks(l, n - 1);
      IdledOnce(Idled(l, n - 1));
    }
  }

  /** How long a reportable state that the interlock passed keeps its guard open. */
  lemma GuardStaysOpen(f: Fsm, t: M.MsgType, n: nat)
    requires WellTicked(f) && Reportable(f.state)
    requires P.IsCommand(t) && P.Interlock(Some(StateText(f.state)), t)
    ensures Accepts(TickedTimes(f, n).state, CmdOf(t)) <==> !(t == M.Stop && f.ticks + n >= PROCESSING_TICKS)
  {
    P.InterlockIsGuard(f.state, t);
    if f.state == Processing {
      ProcessingRuns(f.ticks, n);
    } else {
      StableStates(f.state, n);
    }
  }

  lemma SingleAnswer(n: Node, req: Message)
    requires req.role == M.Req
    ensures Reports(n, [req])[0] == Reply(n.devId, req, Accepts(n.fsm.state, CmdOf(req.typ)))
  {
    assert [req][..0] == [];
    var b := Batch(n.devId, n.fsm, [req]);
    assert Batch(n.devId, n.fsm, []) == Batched(n.fsm, []);
    assert b == Batched(Handled(n.fsm, req), [] + Answer(n.devId, n.fsm, req));
    assert b.outs == [Reply(n.devId, req, Accepts(n.fsm.state, CmdOf(req.typ)))];
  }

  lemma SettledCache(l: Line)
    requires LineInv(l) && forall m | m in l.up :: !IsReport(m)
    ensures l.conn.cached == Some(StateText(l.node.fsm.state))
  {
    QuietMessages(l.conn.cached, l.up);
  }

  /** A command routed on a settled cache is the next thing the simulator handles. It is answered ok
      unless it is a STOP that comes after processing has run out; in particular it is never refused when
      it is delivered before the next tick (n == 0). */
  lemma RoutedCommandOutcome(s: System, i: nat, req: Message, n: nat)
    requires Inv(s) && Settled(s, i, req) && req.role == M.Req && P.IsCommand(req.typ)
    requires P.VerdictOn(TargetConn(s, req), req, None, None).ToSim?
    ensures var l := s.lines[i];
            var l' := Idled(Asked(s, req, None, None).lines[i], n);
            var late := req.typ == M.Stop && l.node.fsm.ticks + n >= PROCESSING_TICKS;
            && l'.down == [req]
            && var r, own := Reports(l'.node, [req])[0], req.(dev := Some(l.node.devId));
            && (if late then M.IsRefusal(r, own, 500, "SIM_CMD_FAILED") else M.IsConsent(r, own))
            && (n == 0 ==> !late)
  {
    var l := s.lines[i];
    SettledCache(l);
    var asked := l.(down := [req]);
    assert Asked(s, req, None, None).lines[i] == asked;
    IdledTicks(asked, n);
    GuardStaysOpen(l.node.fsm, req.typ, n);
    SingleAnswer(Idled(asked, n).node, req);
  }
}
