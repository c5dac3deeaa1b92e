/** The simulated chamber: temperature, pressure and flow, driven by the state machine. */
module ProcessModel {
  import opened Fsm

  const TEMP_AMBIENT := 25.0
  const PRESSURE_AMBIENT := 1.0

  datatype Model = Model(temp: real, pressure: real, flow: real, heaterOn: bool, pumpOn: bool)

  const AMBIENT := Model(TEMP_AMBIENT, PRESSURE_AMBIENT, 0.0, false, false)

  function Max(a: real, b: real): real {
    if a < b then b else a
  }

  function Min(a: real, b: real): real {
    if b < a then b else a
  }

  /** process_model_apply_state, then process_model_update. */
  function Applied(m: Model, s: SimState): Model {
    match s
    case Processing => m.(heaterOn := true, pumpOn := true)
    case Booting => m
    case Recovering => m
    case _ => m.(heaterOn := false, pumpOn := false)
  }

  function Updated(m: Model): Model {
    m.(temp := if m.heaterOn then m.temp + 1.5 else Max(m.temp - 0.5, TEMP_AMBIENT),
       pressure := if m.pumpOn then Max(m.pressure - 0.05, 0.1) else Min(m.pressure + 0.05, PRESSURE_AMBIENT),
       flow := if m.heaterOn then Min(m.flow + 2.0, 100.0) else Max(m.flow - 2.0, 0.0))
  }

  class Process {
    var temp: real
    var pressure: real
    var flow: real
    var heaterOn: bool
    var pumpOn: bool

    ghost function View(): Model
      reads this
    {
      Model(temp, pressure, flow, heaterOn, pumpOn)
    }

    constructor ()
      ensures View() == AMBIENT
    {
      temp, pressure, flow, heaterOn, pumpOn := TEMP_AMBIENT, PRESSURE_AMBIENT, 0.0, false, false;
    }

    method ApplyState(s: SimState)
      modifies this
      ensures View() == Applied(old(View()), s)
    {
      match s {
        case Processing =>
          heaterOn := true;
          pumpOn := true;
        case Idle | Ready | Done =>
          heaterOn := false;
          pumpOn := false;
        case Fault =>
          heaterOn := false;
          pumpOn := false;
        case _ =>
      }
    }

    method Update()
      modifies this
      ensures View() == Updated(old(View()))
    {
      if heaterOn {
        temp := temp + 1.5;
      } else {
        temp := temp - 0.5;
        if temp < TEMP_AMBIENT {
          temp := TEMP_AMBIENT;
        }
      }
      if pumpOn {
        pressure := pressure - 0.05;
        if pressure < 0.1 {
          pressure := 0.1;
        }
      } else {
        pressure := pressure + 0.05;
        if pressure > PRESSURE_AMBIENT {
          pressure := PRESSURE_AMBIENT;
        }
      }
      if heaterOn {
        flow := flow + 2.0;
        if flow > 100.0 {
          flow := 100.0;
        }
      } else {
        flow := flow - 2.0;
        if flow < 0.0 {
          flow := 0.0;
        }
      }
    }
  }

  // ----- runs, one state per simulator iteration

  /** The states an iteration can end in. */
  predicate Reportable(s: SimState) {
    s in {Idle, Processing, Done, Fault}
  }

  function RunModel(m: Model, ss: seq<SimState>): Model {
    if ss == [] then m else Updated(Applied(RunModel(m, ss[..|ss| - 1]), ss[|ss| - 1]))
  }

  function ProcessingCount(ss: seq<SimState>): nat {
    if ss == [] then 0 else ProcessingCount(ss[..|ss| - 1]) + (if ss[|ss| - 1] == Processing then 1 else 0)
  }

  predicate InEnvelope(m: Model) {
    m.temp >= 25.0 && 0.1 <= m.pressure <= 1.0 && 0.0 <= m.flow <= 100.0
  }

  /** The envelope of every run; heating is bounded by the time spent processing. */
  lemma {:induction false} Envelope(ss: seq<SimState>)
    requires forall s | s in ss :: Reportable(s)
    ensures var m := RunModel(AMBIENT, ss);
            && InEnvelope(m)
            && m.temp <= 25.0 + 1.5 * ProcessingCount(ss) as real
            && m.flow <= 2.0 * ProcessingCount(ss) as real
            && (ss != [] ==> (m.heaterOn <==> ss[|ss| - 1] == Processing) && (m.pumpOn <==> ss[|ss| - 1] == Processing))
  {
    if ss != [] {
      assert ss[|ss| - 1] in ss;
      Envelope(ss[..|ss| - 1]);
    }
  }

  /** n iterations of processing. */
  function Heated(m: Model, n: nat): Model {
    if n == 0 then m else Updated(Applied(Heated(m, n - 1), Processing))
  }

  /** Processing heats by exactly 1.5 an iteration without a limit, brings the flow up by 2 to at most 100 and the pressure
      down by 0.05 to no less than 0.1, with heater and pump on. */
  lemma {:induction false} HeatedClosedForm(m: Model, n: nat)
    requires InEnvelope(m)
    ensures var h := Heated(m, n);
            && h.temp == m.temp + 1.5 * n as real
            && h.flow == Min(m.flow + 2.0 * n as real, 100.0)
            && h.pressure == Max(m.pressure - 0.05 * n as real, 0.1)
            && (n > 0 ==> h.heaterOn && h.pumpOn)
  {
    if n > 0 {
      HeatedClosedForm(m, n - 1);
    }
  }

  lemma {:induction false} ProcessingRunHeats(m: Model, ss: seq<SimState>)
    requires forall s | s in ss :: s == Processing
    ensures RunModel(m, ss) == Heated(m, |ss|)
  {
    if ss != [] {
      var fs := ss[..|ss| - 1];
      assert ss[|ss| - 1] in ss;
      forall s | s in fs
        ensures s == Processing
      {
        assert s in ss;
      }
      ProcessingRunHeats(m, fs);
    }
  }

  /** n iterations without processing. */
  function Rested(m: Model, n: nat): Model {
    if n == 0 then m else Updated(Rested(m, n - 1).(heaterOn := false, pumpOn := false))
  }

  lemma {:induction false} RestedClosedForm(m: Model, n: nat)
    requires InEnvelope(m)
    ensures var r := Rested(m, n);
            && r.temp == Max(m.temp - 0.5 * n as real, 25.0)
            && r.pressure == Min(m.pressure + 0.05 * n as real, 1.0)
            && r.flow == Max(m.flow - 2.0 * n as real, 0.0)
  {
    if n > 0 {
      RestedClosedForm(m, n - 1);
    }
  }

  /** Exactly how many iterations without processing bring everything back to ambient. */
  lemma BackToAmbient(m: Model, n: nat)
    requires InEnvelope(m)
    ensures var r := Rested(m, n);
            (r.temp == 25.0 && r.pressure == 1.0 && r.flow == 0.0) <==>
            (m.temp - 25.0 <= 0.5 * n as real && 1.0 - m.pressure <= 0.05 * n as real && m.flow <= 2.0 * n as real)
  {
    RestedClosedForm(m, n);
  }

  /** Any run of iterations that end outside PROCESSING is such a rest. */
  lemma {:induction false} RestingRun(m: Model, ss: seq<SimState>)
    requires ss != [] && forall s | s in ss :: Reportable(s) && s != Processing
    ensures RunModel(m, ss) == Rested(m, |ss|)
  {
    var n := |ss| - 1;
    assert ss[n] in ss;
    if n > 0 {
      RestingRun(m, ss[..n]);
    }
  }
}
