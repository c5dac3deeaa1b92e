/** The simulator's process state machine and its run law. */
module Fsm {
  datatype SimState = Booting | Idle | Ready | Processing | Done | Fault | Recovering
  datatype Cmd = CmdNone | CmdStart | CmdStop | CmdReset | CmdFault
  datatype Fsm = Fsm(state: SimState, ticks: nat)

  const PROCESSING_TICKS := 5
  const BOOT := Fsm(Booting, 0)

  function StateText(s: SimState): string {
    match s
    case Booting => "BOOTING"
    case Idle => "IDLE"
    case Ready => "READY"
    case Processing => "PROCESSING"
    case Fault => "FAULT"
    case Recovering => "RECOVERING"
    case Done => "DONE"
  }

  /** The guard of each command. */
  predicate Accepts(s: SimState, c: Cmd) {
    match c
    case CmdStart => s == Idle || s == Ready
    case CmdStop => s == Processing
    case CmdReset => s == Fault
    case CmdFault => true
    case CmdNone => false
  }

  function Target(c: Cmd): SimState
    requires c != CmdNone
  {
    match c
    case CmdStart => Ready
    case CmdStop => Idle
    case CmdReset => Recovering
    case CmdFault => Fault
  }

  function Commanded(f: Fsm, c: Cmd): Fsm {
    if Accepts(f.state, c) then Fsm(Target(c), 0) else f
  }

  function Ticked(f: Fsm): Fsm {
    match f.state
    case Booting => f.(state := Idle)
    case Ready => Fsm(Processing, 0)
    case Processing => if f.ticks + 1 >= PROCESSING_TICKS then Fsm(Done, 0) else f.(ticks := f.ticks + 1)
    case Recovering => f.(state := Idle)
    case _ => f
  }

  /** fsm_t. */
  class Machine {
    var state: SimState
    var processingTicks: nat

    ghost function View(): Fsm
      reads this
    {
      Fsm(state, processingTicks)
    }

    constructor ()
      ensures View() == BOOT
    {
      state, processingTicks := Booting, 0;
    }

    /** 0: done; -2: not in this state; -1: no such command. */
    method HandleCommand(c: Cmd) returns (rc: int)
      modifies this
      ensures View() == Commanded(old(View()), c)
      ensures rc == if Accepts(old(state), c) then 0 else if c == CmdNone then -1 else -2
    {
      match c {
        case CmdStart =>
          if state == Idle || state == Ready {
            state, processingTicks := Ready, 0;
            return 0;
          }
          return -2;
        case CmdStop =>
          if state == Processing {
            state, processingTicks := Idle, 0;
            return 0;
          }
          return -2;
        case CmdReset =>
          if state == Fault {
            state, processingTicks := Recovering, 0;
            return 0;
          }
          return -2;
        case CmdFault =>
          state, processingTicks := Fault, 0;
          return 0;
        case CmdNone =>
          return -1;
      }
    }

    method Tick()
      modifies this
      ensures View() == Ticked(old(View()))
    {
      match state {
        case Booting =>
          state := Idle;
        case Ready =>
          state, processingTicks := Processing, 0;
        case Processing =>
          processingTicks := processingTicks + 1;
          if processingTicks >= PROCESSING_TICKS {
            state, processingTicks := Done, 0;
          }
        case Recovering =>
          state := Idle;
        case _ =>
      }
    }
  }

  // ----- runs

  datatype FsmEvent = Command(cmd: Cmd) | Tick

  function After(f: Fsm, e: FsmEvent): Fsm {
    match e
    case Command(c) => Commanded(f, c)
    case Tick => Ticked(f)
  }

  /** The machine after the first n events. */
  function At(f: Fsm, es: seq<FsmEvent>, n: nat): Fsm
    requires n <= |es|
  {
    if n == 0 then f else After(At(f, es, n - 1), es[n - 1])
  }

  function TickCount(es: seq<FsmEvent>, n: nat): nat
    requires n <= |es|
  {
    if n == 0 then 0 else TickCount(es, n - 1) + (if es[n - 1] == Tick then 1 else 0)
  }

  predicate WellTicked(f: Fsm) {
    f.ticks < PROCESSING_TICKS && (f.ticks > 0 ==> f.state == Processing)
  }

  /** The counter never exceeds 4 and is zero outside PROCESSING. */
  lemma {:induction false} TicksBounded(f: Fsm, es: seq<FsmEvent>, n: nat)
    requires n <= |es| && WellTicked(f)
    ensures WellTicked(At(f, es, n))
  {
    if n > 0 {
      TicksBounded(f, es, n - 1);
    }
  }

  /** The machine after n ticks and nothing else. */
  function TickedTimes(f: Fsm, n: nat): Fsm {
    if n == 0 then f else Ticked(TickedTimes(f, n - 1))
  }

  lemma {:induction false} ProcessingRuns(t: nat, n: nat)
    requires t < PROCESSING_TICKS
    ensures TickedTimes(Fsm(Processing, t), n)
         == if t + n < PROCESSING_TICKS then Fsm(Processing, t + n) else Fsm(Done, 0)
  {
    if n > 0 {
      ProcessingRuns(t, n - 1);
    }
  }

  lemma {:induction false} TickedOnceMore(f: Fsm, n: nat)
    ensures TickedTimes(Ticked(f), n) == TickedTimes(f, n + 1)
  {
    if n > 0 {
      TickedOnceMore(f, n - 1);
    }
  }

  /** Left alone, READY is PROCESSING for exactly five ticks and DONE from the sixth on. */
  lemma ReadyReachesDone(n: nat)
    ensures TickedTimes(Fsm(Ready, 0), n).state == (if n == 0 then Ready else if n <= 5 then Processing else Done)
  {
    if n > 0 {
      TickedOnceMore(Fsm(Ready, 0), n - 1);
      ProcessingRuns(0, n - 1);
    }
  }

  /** States a tick leaves alone. */
  lemma {:induction false} StableStates(s: SimState, n: nat)
    requires s in {Idle, Done, Fault}
    ensures TickedTimes(Fsm(s, 0), n) == Fsm(s, 0)
  {
    if n > 0 {
      StableStates(s, n - 1);
    }
  }

  // ----- what a command leads to

  lemma {:induction false} RecoveringReachesIdle(n: nat)
    ensures TickedTimes(Fsm(Recovering, 0), n).state == if n == 0 then Recovering else Idle
  {
    if n > 0 {
      TickedOnceMore(Fsm(Recovering, 0), n - 1);
      StableStates(Idle, n - 1);
    }
  }

  lemma {:induction false} BootReachesIdle(n: nat)
    ensures TickedTimes(BOOT, n).state == if n == 0 then Booting else Idle
  {
    if n > 0 {
      TickedOnceMore(BOOT, n - 1);
      StableStates(Idle, n - 1);
    }
  }

  /** A command and n ticks after it, state by state: START is taken in IDLE and READY and leads through five ticks of
      PROCESSING to DONE; STOP is taken in PROCESSING and ends in IDLE; RESET is taken in FAULT and ends in IDLE after a
      tick; FAULT is always taken and stays. Whatever is not taken changes nothing. */
  lemma CommandLeadsTo(f: Fsm, c: Cmd, n: nat)
    ensures var s := TickedTimes(Commanded(f, c), n).state;
            if c == CmdStart && f.state in {Idle, Ready} then
              s == if n == 0 then Ready else if n <= 5 then Processing else Done
            else if c == CmdStop && f.state == Processing then s == Idle
            else if c == CmdReset && f.state == Fault then s == if n == 0 then Recovering else Idle
            else if c == CmdFault then s == Fault
            else Commanded(f, c) == f
  {
    ReadyReachesDone(n);
    StableStates(Idle, n);
    StableStates(Fault, n);
    RecoveringReachesIdle(n);
  }

  // ----- between two entries into DONE

  /** The least number of ticks before DONE can be entered (again). */
  function Need(f: Fsm): int {
    match f.state
    case Processing => PROCESSING_TICKS - f.ticks
    case Idle => 6
    case Ready => 6
    case _ => 7
  }

  lemma {:induction false} NeedFalls(f: Fsm, es: seq<FsmEvent>, n: nat)
    requires n <= |es| && WellTicked(f)
    ensures TickCount(es, n) + Need(At(f, es, n)) >= Need(f)
  {
    if n > 0 {
      TicksBounded(f, es, n - 1);
      NeedFalls(f, es, n - 1);
    }
  }

  predicate AcceptedAt(f: Fsm, es: seq<FsmEvent>, i: nat, c: Cmd)
    requires i < |es|
  {
    es[i] == Command(c) && Accepts(At(f, es, i).state, c)
  }

  predicate FaultBefore(f: Fsm, es: seq<FsmEvent>, n: nat)
    requires n <= |es|
  {
    exists i: nat | i < n :: AcceptedAt(f, es, i, CmdFault)
  }

  predicate ResetAfterFault(f: Fsm, es: seq<FsmEvent>, n: nat)
    requires n <= |es|
  {
    exists j: nat | j < n :: AcceptedAt(f, es, j, CmdReset) && FaultBefore(f, es, j)
  }

  predicate StartAfterReset(f: Fsm, es: seq<FsmEvent>, n: nat)
    requires n <= |es|
  {
    exists k: nat | k < n :: AcceptedAt(f, es, k, CmdStart) && ResetAfterFault(f, es, k)
  }

  /** How far a run that began in DONE has come: what its state says about its past. */
  predicate PastOf(f: Fsm, es: seq<FsmEvent>, n: nat)
    requires n <= |es|
  {
    match At(f, es, n).state
    case Done => true
    case Fault => FaultBefore(f, es, n)
    case Recovering => ResetAfterFault(f, es, n)
    case Idle => ResetAfterFault(f, es, n)
    case Ready => StartAfterReset(f, es, n)
    case Processing => StartAfterReset(f, es, n)
    case Booting => false
  }

  lemma Monotone(f: Fsm, es: seq<FsmEvent>, n: nat)
    requires n < |es|
    ensures FaultBefore(f, es, n) ==> FaultBefore(f, es, n + 1)
    ensures ResetAfterFault(f, es, n) ==> ResetAfterFault(f, es, n + 1)
    ensures StartAfterReset(f, es, n) ==> StartAfterReset(f, es, n + 1)
  {
  }

  lemma StartMeansReset(f: Fsm, es: seq<FsmEvent>, n: nat)
    requires n <= |es| && StartAfterReset(f, es, n)
    ensures ResetAfterFault(f, es, n)
  {
    var k: nat :| k < n && AcceptedAt(f, es, k, CmdStart) && ResetAfterFault(f, es, k);
    var j: nat :| j < k && AcceptedAt(f, es, j, CmdReset) && FaultBefore(f, es, j);
  }

  lemma {:induction false} PastHolds(f: Fsm, es: seq<FsmEvent>, n: nat)
    requires n <= |es| && f.state == Done
    ensures PastOf(f, es, n)
  {
    if n > 0 {
      PastHolds(f, es, n - 1);
      Monotone(f, es, n - 1);
      if StartAfterReset(f, es, n - 1) {
        StartMeansReset(f, es, n - 1);
      }
      var e := es[n - 1];
      if e.Command? && Accepts(At(f, es, n - 1).state, e.cmd) {
        assert AcceptedAt(f, es, n - 1, e.cmd);
      }
    }
  }

  /** Between two entries into DONE there are a FAULT, then an accepted RESET, then an accepted START, in
      this order, and at least seven ticks. */
  lemma DoneAgain(es: seq<FsmEvent>, n: nat)
    requires 0 < n <= |es|
    requires var f := Fsm(Done, 0); At(f, es, n - 1).state != Done && At(f, es, n).state == Done
    ensures StartAfterReset(Fsm(Done, 0), es, n)
    ensures TickCount(es, n) >= 7
  {
    var f := Fsm(Done, 0);
    PastHolds(f, es, n - 1);
    Monotone(f, es, n - 1);
    TicksBounded(f, es, n - 1);
    NeedFalls(f, es, n - 1);
  }
}
