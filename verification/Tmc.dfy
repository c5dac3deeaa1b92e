/** The transfer module: a timed state machine, and what its reports mean for the registry. */
module Tmc {
  import opened Wrappers
  import opened Ints
  import opened Messages
  import R = Registry

  const TRANSFER_MS := 2000
  const STATUS_PERIOD_MS := 1000
  const DEV_ID: u32 := 100

  datatype TmcState = Idle | Transferring | Done | Faulted
  datatype Tmc = Tmc(state: TmcState, startedMs: int, lastSentMs: int)

  function StateText(s: TmcState): string {
    match s
    case Idle => "IDLE"
    case Transferring => "TRANSFERRING"
    case Done => "DONE"
    case Faulted => "FAULT"
  }

  function StatusEvt(s: TmcState): Message {
    Blank(Evt, Status).(dev := Some(DEV_ID), state := Some(StateText(s)))
  }

  function StatusReply(req: Message, s: TmcState): Message {
    OkReply(req).(typ := Status, state := Some(StateText(s)))
  }

  predicate IsCommand(t: MsgType) {
    t == Start || t == Stop || t == Reset || t == Fault
  }

  predicate Accepts(s: TmcState, t: MsgType) {
    match t
    case Start => s == Idle || s == Done
    case Stop => s == Transferring
    case Reset => s == Faulted
    case Fault => true
    case _ => false
  }

  function Commanded(t: Tmc, typ: MsgType, now: int): Tmc {
    if !Accepts(t.state, typ) then t
    else if typ == Start then t.(state := Transferring, startedMs := now)
    else t.(state := if typ == Fault then Faulted else Idle, startedMs := 0)
  }

  datatype Outcome = Outcome(t: Tmc, sent: seq<Message>, rc: int)

  /** handle_req_message; the two oracles say whether the first and the second send succeed. */
  function Handled(t: Tmc, m: Message, now: int, sentAt: int, wr1: bool, wr2: bool): Outcome {
    if m.role != Req then Outcome(t, [], 0)
    else if !wr1 then Outcome(Commanded(t, m.typ, now), [], -1)
    else if m.typ == Status then Outcome(t, [StatusReply(m, t.state)], 0)
    else if !IsCommand(m.typ) then Outcome(t, [ErrorReply(m, 404, "UNKNOWN_TYPE")], 0)
    else if !Accepts(t.state, m.typ) then Outcome(t, [ErrorReply(m, 409, "INVALID_STATE_TRANSITION")], 0)
    else
      var t' := Commanded(t, m.typ, now);
      if !wr2 then Outcome(t', [OkReply(m)], -1)
      else Outcome(t'.(lastSentMs := sentAt), [OkReply(m), StatusEvt(t'.state)], 1)
  }

  predicate Finishes(t: Tmc, now: int) {
    t.state == Transferring && t.startedMs > 0 && now - t.startedMs >= TRANSFER_MS
  }

  /** tick_state_machine at time now, with the send times and outcomes of its at most two reports. */
  function Ticked(t: Tmc, now: int, at1: int, at2: int, wr1: bool, wr2: bool): Outcome {
    var t1 := if !Finishes(t, now) then t
              else Tmc(Done, 0, if wr1 then at1 else t.lastSentMs);
    var sent1 := if Finishes(t, now) && wr1 then [StatusEvt(Done)] else [];
    if now - t1.lastSentMs >= STATUS_PERIOD_MS && wr2
    then Outcome(t1.(lastSentMs := at2), sent1 + [StatusEvt(t1.state)], 0)
    else Outcome(t1, sent1, 0)
  }

  /** tmc_ctx_t. */
  class Node {
    var state: TmcState
    var startedMs: int
    var lastSentMs: int
    var outbox: seq<Message>

    ghost function View(): Tmc
      reads this
    {
      Tmc(state, startedMs, lastSentMs)
    }

    constructor ()
      ensures View() == Tmc(Idle, 0, 0) && outbox == []
    {
      state, startedMs, lastSentMs, outbox := Idle, 0, 0, [];
    }

    method Send(m: Message, wr: bool) returns (rc: int)
      modifies this`outbox
      ensures outbox == old(outbox) + (if wr then [m] else []) && rc == if wr then 0 else -1
    {
      if !wr {
        return -1;
      }
      outbox := outbox + [m];
      rc := 0;
    }

    method SendStatus(at: int, wr: bool) returns (rc: int)
      modifies this`outbox, this`lastSentMs
      ensures outbox == old(outbox) + (if wr then [StatusEvt(state)] else []) && rc == if wr then 0 else -1
      ensures lastSentMs == if wr then at else old(lastSentMs)
    {
      rc := Send(StatusEvt(state), wr);
      if rc == 0 {
        lastSentMs := at;
      }
    }

    method HandleReq(m: Message, now: int, sentAt: int, wr1: bool, wr2: bool) returns (rc: int)
      modifies this
      ensures var o := Handled(old(View()), m, now, sentAt, wr1, wr2);
              View() == o.t && outbox == old(outbox) + o.sent && rc == o.rc
    {
      if m.role != Req {
        return 0;
      }
      if m.typ == Status {
        rc := Send(StatusReply(m, state), wr1);
        return;
      }
      match m.typ {
        case Start =>
          if state == Idle || state == Done {
            state, startedMs := Transferring, now;
          } else {
            rc := Send(ErrorReply(m, 409, "INVALID_STATE_TRANSITION"), wr1);
            return;
          }
        case Stop =>
          if state == Transferring {
            state, startedMs := Idle, 0;
          } else {
            rc := Send(ErrorReply(m, 409, "INVALID_STATE_TRANSITION"), wr1);
            return;
          }
        case Fault =>
          state, startedMs := Faulted, 0;
        case Reset =>
          if state == Faulted {
            state, startedMs := Idle, 0;
          } else {
            rc := Send(ErrorReply(m, 409, "INVALID_STATE_TRANSITION"), wr1);
            return;
          }
        case Ping | Register | Error | Telemetry | Alarm | UnknownType =>
          rc := Send(ErrorReply(m, 404, "UNKNOWN_TYPE"), wr1);
          return;
      }
      rc := Send(OkReply(m), wr1);
      if rc != 0 {
        return;
      }
      rc := SendStatus(sentAt, wr2);
      if rc == 0 {
        rc := 1;
      }
    }

    method Tick(now: int, at1: int, at2: int, wr1: bool, wr2: bool)
      modifies this
      ensures var o := Ticked(old(View()), now, at1, at2, wr1, wr2);
              View() == o.t && outbox == old(outbox) + o.sent
    {
      if state == Transferring {
        if startedMs > 0 && now - startedMs >= TRANSFER_MS {
          state, startedMs := Done, 0;
          var _ := SendStatus(at1, wr1);
        }
      }
      if now - lastSentMs >= STATUS_PERIOD_MS {
        var _ := SendStatus(at2, wr2);
      }
    }
  }

  // ----- runs

  datatype TmcEvent =
    | Request(req: Message, now: int, sentAt: int, wr1: bool, wr2: bool)
    | TickAt(now: int, at1: int, at2: int, wr1: bool, wr2: bool)

  function After(t: Tmc, e: TmcEvent): Outcome {
    match e
    case Request(m, now, sentAt, wr1, wr2) => Handled(t, m, now, sentAt, wr1, wr2)
    case TickAt(now, at1, at2, wr1, wr2) => Ticked(t, now, at1, at2, wr1, wr2)
  }

  function At(t: Tmc, es: seq<TmcEvent>, n: nat): Tmc
    requires n <= |es|
  {
    if n == 0 then t else After(At(t, es, n - 1), es[n - 1]).t
  }

  predicate Clocked(t: Tmc) {
    t.startedMs > 0 <==> t.state == Transferring
  }

  /** With a positive clock a start time is kept exactly while transferring. */
  lemma {:induction false} StartedWhileTransferring(t: Tmc, es: seq<TmcEvent>, n: nat)
    requires n <= |es| && Clocked(t) && forall e | e in es :: e.now > 0
    ensures Clocked(At(t, es, n))
  {
    if n > 0 {
      StartedWhileTransferring(t, es, n - 1);
      assert es[n - 1] in es;
    }
  }

  /** DONE is entered only by a tick at least 2000 ms after the accepted START; FAULT is left only by an
      accepted RESET; a transfer ends in no other way than DONE, STOP or FAULT. */
  lemma Transitions(t: Tmc, e: TmcEvent)
    requires Clocked(t) && e.now > 0
    ensures var t' := After(t, e).t;
            && (t'.state == Done && t.state != Done <==> e.TickAt? && Finishes(t, e.now))
            && (t.state == Faulted && t'.state != Faulted <==> t.state == Faulted && e.Request? && e.req.role == Req && e.req.typ == Reset)
            && (t'.state == Transferring && t.state == Transferring ==> t'.startedMs == t.startedMs)
            && (t.state == Transferring && t'.state != Transferring ==>
                  (e.TickAt? && t'.state == Done) || (e.Request? && e.req.typ in {Stop, Fault}))
  {
  }

  /** The states in which the module takes a command, and where it then goes. */
  function Goal(s: TmcState, t: MsgType): Option<TmcState> {
    match t
    case Start => if s in {Idle, Done} then Some(Transferring) else None
    case Stop => if s == Transferring then Some(Idle) else None
    case Reset => if s == Faulted then Some(Idle) else None
    case Fault => Some(Faulted)
    case _ => None
  }

  predicate Shows(m: Message, s: TmcState) {
    m.state == Some(match s case Idle => "IDLE" case Transferring => "TRANSFERRING" case Done => "DONE" case Faulted => "FAULT")
  }

  /** What a request does and what its reader is told, field by field. Where the module goes does not depend on the sends;
      a command is taken exactly if it says yes, and a taken one is followed by a report of the new state. */
  lemma RequestSays(t: Tmc, m: Message, now: int, sentAt: int, wr1: bool, wr2: bool)
    requires m.role == Req
    ensures var o := Handled(t, m, now, sentAt, wr1, wr2);
            var goal := Goal(t.state, m.typ);
            && o.t.state == (if goal.Some? then goal.value else t.state)
            && o.t.startedMs == (if goal == None then t.startedMs else if m.typ == Start then now else 0)
            && (!wr1 ==> o.sent == [])
            && (wr1 ==>
                  && o.sent != []
                  && (if m.typ == Status then
                        o.sent[0] == Message(Resp, Status, m.dev, m.seqNo, Some(1), None, o.sent[0].state, None, None, None, None)
                        && Shows(o.sent[0], t.state)
                      else if goal.Some? then IsConsent(o.sent[0], m)
                      else if m.typ in {Start, Stop, Reset} then IsRefusal(o.sent[0], m, 409, "INVALID_STATE_TRANSITION")
                      else IsRefusal(o.sent[0], m, 404, "UNKNOWN_TYPE")))
            && (if wr1 && wr2 && goal.Some? then
                  |o.sent| == 2 && o.sent[1].role == Evt && o.sent[1].typ == Status && o.sent[1].dev == Some(100)
                  && Shows(o.sent[1], goal.value) && o.t.lastSentMs == sentAt
                else |o.sent| <= 1 && o.t.lastSentMs == t.lastSentMs)
  {
  }

  /** What a tick reports: the end of a transfer at once, and the state once a second; nothing else and nothing more. */
  lemma TickSays(t: Tmc, now: int, at1: int, at2: int)
    ensures var o := Ticked(t, now, at1, at2, true, true);
            var ends := t.state == Transferring && t.startedMs > 0 && now - t.startedMs >= 2000;
            var due := now - (if ends then at1 else t.lastSentMs) >= 1000;
            && o.t.state == (if ends then Done else t.state)
            && |o.sent| == (if ends then 1 else 0) + (if due then 1 else 0)
            && (forall m | m in o.sent :: m.role == Evt && m.typ == Status && m.dev == Some(100) && Shows(m, o.t.state))
            && o.t.lastSentMs == (if due then at2 else if ends then at1 else t.lastSentMs)
  {
  }

  predicate TicksOnly(es: seq<TmcEvent>) {
    forall e | e in es :: e.TickAt?
  }

  /** A transfer started at s is DONE after n ticks exactly when one of them came 2000 ms or more after s. */
  lemma {:induction false} TransferTime(s: int, last: int, es: seq<TmcEvent>, n: nat)
    requires n <= |es| && TicksOnly(es) && s > 0
    ensures var t := At(Tmc(Transferring, s, last), es, n);
            && (t.state == Transferring || t.state == Done)
            && (t.state == Done <==> exists i | 0 <= i < n :: es[i].now - s >= TRANSFER_MS)
            && (t.state == Transferring ==> t.startedMs == s)
  {
    if n > 0 {
      TransferTime(s, last, es, n - 1);
      assert es[n - 1] in es;
    }
  }

  // ----- status reports and health

  /** Event times on a loop whose ticks are at most p apart and whose sends take at most d:
      lastTick is the time of the tick before es. */
  predicate Timely(es: seq<TmcEvent>, lastTick: int, p: nat, d: nat)
    decreases |es|
  {
    es == [] ||
    (match es[0]
     case Request(_, now, sentAt, wr1, wr2) =>
       lastTick <= now <= sentAt <= lastTick + p && wr1 && wr2 && Timely(es[1..], lastTick, p, d)
     case TickAt(now, at1, at2, wr1, wr2) =>
       lastTick <= now <= lastTick + p && now <= at1 <= at2 <= now + d && wr1 && wr2 && Timely(es[1..], now, p, d))
  }

  /** The time of the status event an event sends, if it sends one. */
  function ReportTimes(t: Tmc, e: TmcEvent): seq<int> {
    var t' := After(t, e).t;
    match e
    case Request(m, _, sentAt, _, _) => if m.role == Req && Accepts(t.state, m.typ) then [sentAt] else []
    case TickAt(now, at1, at2, _, _) =>
      if Finishes(t, now) then [at1] else if now - t.lastSentMs >= STATUS_PERIOD_MS then [at2] else []
  }

  function Reports(t: Tmc, es: seq<TmcEvent>): seq<int>
    decreases |es|
  {
    if es == [] then [] else ReportTimes(t, es[0]) + Reports(After(t, es[0]).t, es[1..])
  }

  /** Each time is less than g after the one before it, starting from `first`. */
  predicate GapsBelow(first: int, times: seq<int>, g: int)
    decreases |times|
  {
    times == [] || (times[0] - first < g && GapsBelow(times[0], times[1..], g))
  }

  lemma {:induction false} GapAt(first: int, times: seq<int>, g: int, n: nat)
    requires GapsBelow(first, times, g) && 0 < n < |times|
    ensures times[n] - times[n - 1] < g
    decreases n
  {
    if n > 1 {
      GapAt(times[0], times[1..], g, n - 1);
    } else {
      assert GapsBelow(times[0], times[1..], g) && times[1..][0] == times[1];
    }
  }

  lemma ReportStep(t: Tmc, e: TmcEvent, lastTick: int, p: nat, d: nat)
    requires Timely([e], lastTick, p, d) && lastTick - t.lastSentMs < STATUS_PERIOD_MS
    ensures var t' := After(t, e).t;
            var r := ReportTimes(t, e);
            && (r == [] ==> t'.lastSentMs == t.lastSentMs)
            && (r != [] ==> r == [t'.lastSentMs] && t'.lastSentMs - t.lastSentMs < STATUS_PERIOD_MS + p + d)
            && (if e.TickAt? then e.now else lastTick) - t'.lastSentMs < STATUS_PERIOD_MS
            && Timely([], lastTick, p, d)
  {
  }

  /** Consecutive status reports are less than 1000 ms + one loop period + one send apart. */
  lemma {:induction false} ReportGaps(t: Tmc, es: seq<TmcEvent>, lastTick: int, p: nat, d: nat)
    requires Timely(es, lastTick, p, d) && lastTick - t.lastSentMs < STATUS_PERIOD_MS
    ensures GapsBelow(t.lastSentMs, Reports(t, es), STATUS_PERIOD_MS + p + d)
    decreases |es|
  {
    if es != [] {
      var e := es[0];
      var lt := if e.TickAt? then e.now else lastTick;
      assert [e][1..] == [] && Timely([], lt, p, d);
      ReportStep(t, e, lastTick, p, d);
      ReportGaps(After(t, e).t, es[1..], lt, p, d);
      var r, rest := ReportTimes(t, e), Reports(After(t, e).t, es[1..]);
      if r == [] {
        assert r + rest == rest;
      } else {
        assert (r + rest)[1..] == rest;
      }
    }
  }

  /** Each report reaches equipmentd no more than `delay` after it was sent, in order. */
  predicate Delivered(times: seq<int>, arrivals: seq<int>, delay: nat) {
    && |arrivals| == |times|
    && (forall i | 0 <= i < |times| :: times[i] <= arrivals[i] <= times[i] + delay)
    && (forall i, j | 0 <= i < j < |arrivals| :: arrivals[i] <= arrivals[j])
  }

  /** The registry entry after the first n reports, handled at their arrival times. */
  function Entry(m: R.ModuleInfo, arrivals: seq<int>, states: seq<string>, n: nat): R.ModuleInfo
    requires n <= |arrivals| == |states|
  {
    if n == 0 then m else R.StatusEffect(Entry(m, arrivals, states, n - 1), arrivals[n - 1], Some(states[n - 1]))
  }

  /** If reporting gap plus delivery delay stay within 3000 ms, the TMC is healthy at every moment from its
      first report until its next one is due: whenever the daemon refreshes, it finds it alive. */
  lemma StaysHealthy(first: int, times: seq<int>, arrivals: seq<int>, states: seq<string>, delay: nat, g: int,
                     m: R.ModuleInfo, n: nat, now: int)
    requires GapsBelow(first, times, g) && g + delay <= R.MODULE_STALE_MS + 1
    requires Delivered(times, arrivals, delay) && |states| == |times|
    requires 0 < n < |arrivals| && arrivals[n - 1] > 0
    requires arrivals[n - 1] <= now < arrivals[n]
    ensures R.Refreshed(Entry(m, arrivals, states, n), now).healthy
  {
    GapAt(first, times, g, n);
  }

  /** The same from the loop's own bounds, beginning with the report sent at t.lastSentMs. */
  lemma TimelyLoopStaysHealthy(t: Tmc, es: seq<TmcEvent>, lastTick: int, p: nat, d: nat, delay: nat,
                               arrivals: seq<int>, states: seq<string>, m: R.ModuleInfo, n: nat, now: int)
    requires Timely(es, lastTick, p, d) && lastTick - t.lastSentMs < STATUS_PERIOD_MS
    requires STATUS_PERIOD_MS + p + d + delay <= R.MODULE_STALE_MS
    requires Delivered([t.lastSentMs] + Reports(t, es), arrivals, delay) && |states| == |arrivals|
    requires 0 < n < |arrivals| && 0 < arrivals[n - 1] <= now < arrivals[n]
    ensures R.Refreshed(Entry(m, arrivals, states, n), now).healthy
  {
    ReportGaps(t, es, lastTick, p, d);
    var times := [t.lastSentMs] + Reports(t, es);
    assert times[1..] == Reports(t, es);
    StaysHealthy(t.lastSentMs, times, arrivals, states, delay, STATUS_PERIOD_MS + p + d, m, n, now);
  }
}
