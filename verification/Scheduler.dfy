/** The two-stage job: one tick, and what every run of ticks and acknowledgements keeps. */
module Scheduler {
  import opened Wrappers
  import opened Ints
  import opened Registry

  datatype JobState =
    | Idle | PrecleanSent | PrecleanRunning | PrecleanDone
    | DepositionSent | DepositionRunning | Stopped | Complete | Failed

  predicate Usable(m: ModuleInfo, state: string) {
    m.registered && m.healthy && Shows(m, state)
  }

  predicate InPreclean(j: JobState) {
    j == PrecleanSent || j == PrecleanRunning
  }

  predicate InDeposition(j: JobState) {
    j == DepositionSent || j == DepositionRunning
  }

  /** The conditions that send any job to Failed. */
  predicate Faulty(j: JobState, p: ModuleInfo, d: ModuleInfo) {
    || (InPreclean(j) && p.registered && !p.healthy)
    || (InDeposition(j) && d.registered && !d.healthy)
    || Shows(p, "FAULT") || Shows(d, "FAULT")
  }

  /** The device a START is issued to, if the tick issues one. */
  function StartOf(j: JobState, pending: bool, p: ModuleInfo, d: ModuleInfo): Option<u32> {
    if pending || Faulty(j, p, d) then None
    else if ((j == Idle && Usable(p, "DONE")) || j == PrecleanDone) && Usable(d, "IDLE") then Some(2)
    else if j == Idle && Usable(p, "IDLE") then Some(1)
    else None
  }

  /** The job state after a tick. */
  function Next(j: JobState, pending: bool, p: ModuleInfo, d: ModuleInfo): JobState {
    if pending then j
    else if Faulty(j, p, d) then Failed
    else
      match StartOf(j, pending, p, d)
      case Some(dev) => if dev == 1 then PrecleanSent else DepositionSent
      case None =>
        match j
        case Idle => if Usable(p, "DONE") && Usable(d, "DONE") then Complete else Idle
        case PrecleanSent =>
          if Shows(p, "PROCESSING") then PrecleanRunning else if Shows(p, "DONE") then PrecleanDone else j
        case PrecleanRunning => if Shows(p, "DONE") then PrecleanDone else j
        case DepositionSent =>
          if Shows(d, "PROCESSING") then DepositionRunning else if Shows(d, "DONE") then Complete else j
        case DepositionRunning => if Shows(d, "DONE") then Complete else j
        case _ => j
  }

  /** scheduler_tick, branch by branch. */
  method SchedulerTick(p: ModuleInfo, d: ModuleInfo, pending: bool, nextSeq: u32, job: JobState)
    returns (nextSeq': u32, job': JobState, dev: Option<u32>, seqNo: u32)
    ensures job' == Next(job, pending, p, d) && dev == StartOf(job, pending, p, d)
    ensures seqNo == if dev.Some? then nextSeq else 0
    ensures nextSeq' == if dev.Some? then ToU32(nextSeq as int + 1) else nextSeq
  {
    nextSeq', job', dev, seqNo := nextSeq, job, None, 0;
    if pending {
      return;
    }
    if (job == PrecleanSent || job == PrecleanRunning) && p.registered && !p.healthy {
      job' := Failed;
      return;
    }
    if (job == DepositionSent || job == DepositionRunning) && d.registered && !d.healthy {
      job' := Failed;
      return;
    }
    if Shows(p, "FAULT") || Shows(d, "FAULT") {
      job' := Failed;
      return;
    }
    match job {
      case Idle =>
        if Usable(p, "DONE") && Usable(d, "DONE") {
          job' := Complete;
        } else if Usable(p, "DONE") && Usable(d, "IDLE") {
          dev, seqNo, nextSeq', job' := Some(2), nextSeq, ToU32(nextSeq as int + 1), DepositionSent;
        } else if Usable(p, "IDLE") {
          dev, seqNo, nextSeq', job' := Some(1), nextSeq, ToU32(nextSeq as int + 1), PrecleanSent;
        }
      case PrecleanSent =>
        if Shows(p, "PROCESSING") {
          job' := PrecleanRunning;
        } else if Shows(p, "DONE") {
          job' := PrecleanDone;
        }
      case PrecleanRunning =>
        if Shows(p, "DONE") {
          job' := PrecleanDone;
        }
      case PrecleanDone =>
        if Usable(d, "IDLE") {
          dev, seqNo, nextSeq', job' := Some(2), nextSeq, ToU32(nextSeq as int + 1), DepositionSent;
        }
      case DepositionSent =>
        if Shows(d, "PROCESSING") {
          job' := DepositionRunning;
        } else if Shows(d, "DONE") {
          job' := Complete;
        }
      case DepositionRunning =>
        if Shows(d, "DONE") {
          job' := Complete;
        }
      case _ =>
    }
  }

  // ----- runs

  datatype JobEvent =
    | Tick(pending: bool, preclean: ModuleInfo, deposition: ModuleInfo)
    | AckStop | AckReset | AckFault

  function After(j: JobState, e: JobEvent): JobState {
    match e
    case Tick(pending, p, d) => Next(j, pending, p, d)
    case AckStop => Stopped
    case AckReset => Idle
    case AckFault => Failed
  }

  /** The job state after a history that starts in Idle. */
  function Job(es: seq<JobEvent>): JobState {
    if es == [] then Idle else After(Job(es[..|es| - 1]), es[|es| - 1])
  }

  /** The START issued by event i of a history. */
  function StartAt(es: seq<JobEvent>, i: nat): Option<u32>
    requires i < |es|
  {
    match es[i]
    case Tick(pending, p, d) => StartOf(Job(es[..i]), pending, p, d)
    case _ => None
  }

  predicate NoResetIn(es: seq<JobEvent>, lo: nat, hi: nat)
    requires hi <= |es|
  {
    forall k | lo <= k < hi :: es[k] != AckReset
  }

  /** A tick that looked at preclean and found it DONE; with a request pending it does not look. */
  predicate SawPrecleanDone(e: JobEvent) {
    e.Tick? && !e.pending && Shows(e.preclean, "DONE")
  }

  /** Preclean was observed DONE at event i and nothing was reset since, up to n. */
  predicate DoneSince(es: seq<JobEvent>, i: nat, n: nat)
    requires i < n <= |es|
  {
    SawPrecleanDone(es[i]) && NoResetIn(es, i, n)
  }

  /** The devices started since the last acknowledged RESET, in order. */
  function Starts(es: seq<JobEvent>): seq<u32> {
    if es == [] then []
    else
      var n := |es| - 1;
      if es[n] == AckReset then []
      else match StartAt(es, n)
        case None => Starts(es[..n])
        case Some(d) => Starts(es[..n]) + [d]
  }

  function DoneSeen(es: seq<JobEvent>): bool {
    es != [] && es[|es| - 1] != AckReset && (SawPrecleanDone(es[|es| - 1]) || DoneSeen(es[..|es| - 1]))
  }

  /** What the job state says about the STARTs and observations since the last RESET. */
  predicate Consistent(j: JobState, starts: seq<u32>, seen: bool) {
    match j
    case Idle => starts == []
    case PrecleanSent => starts == [1]
    case PrecleanRunning => starts == [1]
    case PrecleanDone => starts == [1] && seen
    case DepositionSent => (starts == [2] || starts == [1, 2]) && seen
    case DepositionRunning => (starts == [2] || starts == [1, 2]) && seen
    case Complete => (starts == [] || starts == [2] || starts == [1, 2]) && seen
    case _ =>
      starts == [] || starts == [1] || ((starts == [2] || starts == [1, 2]) && seen)
  }

  lemma {:induction false} RunConsistent(es: seq<JobEvent>)
    ensures Consistent(Job(es), Starts(es), DoneSeen(es))
  {
    if es != [] {
      RunConsistent(es[..|es| - 1]);
    }
  }

  /** One event more: what it adds to the list. */
  lemma StartsStep(es: seq<JobEvent>)
    requires es != [] && es[|es| - 1] != AckReset
    ensures var n := |es| - 1;
            Starts(es) == Starts(es[..n]) + (if StartAt(es, n).Some? then [StartAt(es, n).value] else [])
  {
  }

  /** Until the next RESET the list only grows. */
  lemma {:induction false} StartsGrow(es: seq<JobEvent>, i: nat)
    requires i <= |es| && NoResetIn(es, i, |es|)
    ensures Starts(es[..i]) <= Starts(es)
    decreases |es|
  {
    var n := |es| - 1;
    if i <= n {
      StartsStep(es);
      StartAtPrefix(es, i, n);
      StartsGrow(es[..n], i);
    } else {
      assert es[..i] == es;
    }
  }

  lemma StartAtPrefix(es: seq<JobEvent>, i: nat, n: nat)
    requires i <= n <= |es|
    ensures es[..n][..i] == es[..i]
    ensures i < n ==> StartAt(es[..n], i) == StartAt(es, i)
  {
    assert es[..n][..i] == es[..i];
  }

  /** A START stays in the list until the next RESET. */
  lemma StartRemembered(es: seq<JobEvent>, i: nat)
    requires i < |es| && StartAt(es, i).Some? && NoResetIn(es, i, |es|)
    ensures |Starts(es[..i])| < |Starts(es)|
    ensures Starts(es)[|Starts(es[..i])|] == StartAt(es, i).value
  {
    StartAtPrefix(es, i, i + 1);
    StartsStep(es[..i + 1]);
    StartsGrow(es, i + 1);
  }

  lemma StartRemembered2(es: seq<JobEvent>, i: nat, j: nat)
    requires i < j < |es| && StartAt(es, i).Some? && StartAt(es, j).Some? && NoResetIn(es, i, j)
    ensures var s := Starts(es[..j + 1]);
            exists a, b | 0 <= a < b < |s| :: s[a] == StartAt(es, i).value && s[b] == StartAt(es, j).value
  {
    var fs, gs := es[..j], es[..j + 1];
    StartAtPrefix(es, i, j);
    StartRemembered(fs, i);
    StartAtPrefix(es, j, j + 1);
    StartsStep(gs);
    assert Starts(gs)[|Starts(fs[..i])|] == StartAt(es, i).value && Starts(gs)[|Starts(fs)|] == StartAt(es, j).value;
  }

  /** Job safety: between two RESETs each device is started at most once, device 1 first. */
  lemma StartsOnceInOrder(es: seq<JobEvent>, i: nat, j: nat)
    requires i < j < |es| && NoResetIn(es, i, j)
    requires StartAt(es, i).Some? && StartAt(es, j).Some?
    ensures StartAt(es, i) == Some(1) && StartAt(es, j) == Some(2)
  {
    StartRemembered2(es, i, j);
    RunConsistent(es[..j + 1]);
  }

  lemma {:induction false} DoneWitness(es: seq<JobEvent>)
    requires DoneSeen(es)
    ensures exists i: nat | i < |es| :: DoneSince(es, i, |es|)
  {
    var n := |es| - 1;
    if SawPrecleanDone(es[n]) {
      assert DoneSince(es, n, |es|);
    } else {
      DoneWitness(es[..n]);
      var i: nat :| i < n && DoneSince(es[..n], i, n);
      assert DoneSince(es, i, |es|);
    }
  }

  /** Job safety: device 2 is started, and the job completes, only after preclean was seen DONE since the last RESET. */
  lemma DepositionNeedsPreclean(es: seq<JobEvent>, j: nat)
    requires j < |es|
    requires StartAt(es, j) == Some(2) || (Job(es[..j + 1]) == Complete)
    ensures var n := j + 1; exists i: nat | i < n :: DoneSince(es, i, n)
  {
    var fs := es[..j + 1];
    assert fs[..j] == es[..j];
    RunConsistent(fs);
    if StartAt(es, j) == Some(2) {
      assert Starts(fs) == Starts(es[..j]) + [2];
      assert Job(fs) == DepositionSent;
    }
    DoneWitness(fs);
    var i: nat :| i < |fs| && DoneSince(fs, i, |fs|);
    assert DoneSince(es, i, j + 1);
  }

  /** Job safety: nothing is started from a terminal state, and every START leaves Idle or PrecleanDone. */
  lemma StartsOnlyFrom(es: seq<JobEvent>, i: nat)
    requires i < |es| && StartAt(es, i).Some?
    ensures Job(es[..i]) in {Idle, PrecleanDone}
    ensures Job(es[..i + 1]) == if StartAt(es, i) == Some(1) then PrecleanSent else DepositionSent
    ensures StartAt(es, i) in {Some(1), Some(2)}
  {
    assert es[..i + 1][..i] == es[..i];
  }

  // ----- progress

  function Rank(j: JobState): nat {
    match j
    case Idle => 0
    case PrecleanSent => 1
    case PrecleanRunning => 2
    case PrecleanDone => 3
    case DepositionSent => 4
    case DepositionRunning => 5
    case Stopped => 6
    case Complete => 6
    case Failed => 7
  }

  /** How often the job state changes in a run of ticks that starts in j. */
  function Changes(j: JobState, es: seq<JobEvent>): nat
    requires forall e | e in es :: e.Tick?
    decreases |es|
  {
    if es == [] then 0
    else
      var j' := After(j, es[0]);
      (if j' == j then 0 else 1) + Changes(j', es[1..])
  }

  /** A run of ticks alone changes the state at most 7 times: every change climbs in rank. */
  lemma {:induction false} TicksSettle(j: JobState, es: seq<JobEvent>)
    requires forall e | e in es :: e.Tick?
    ensures Changes(j, es) <= 7 - Rank(j)
    decreases |es|
  {
    if es != [] {
      TicksSettle(After(j, es[0]), es[1..]);
    }
  }

  /** Registered, healthy, and seen in the state. */
  predicate SeenIn(m: ModuleInfo, state: string) {
    m.registered && m.healthy && m.hasState && m.currentState == state
  }

  /** A tick with no request pending moves a job on, and starts what is next, as soon as it sees what the job waits for:
      two healthy modules, neither of them in FAULT. */
  lemma TickMovesOn(j: JobState, p: ModuleInfo, d: ModuleInfo, ps: string, ds: string)
    requires SeenIn(p, ps) && SeenIn(d, ds) && ps != "FAULT" && ds != "FAULT"
    ensures var j', start := Next(j, false, p, d), StartOf(j, false, p, d);
            && (j == Idle && ps == "IDLE" ==> j' == PrecleanSent && start == Some(1))
            && (j == Idle && ps == "DONE" && ds == "IDLE" ==> j' == DepositionSent && start == Some(2))
            && (j == Idle && ps == "DONE" && ds == "DONE" ==> j' == Complete && start == None)
            && (j == PrecleanSent && ps == "PROCESSING" ==> j' == PrecleanRunning && start == None)
            && (j in {PrecleanSent, PrecleanRunning} && ps == "DONE" ==> j' == PrecleanDone && start == None)
            && (j == PrecleanDone && ds == "IDLE" ==> j' == DepositionSent && start == Some(2))
            && (j == DepositionSent && ds == "PROCESSING" ==> j' == DepositionRunning && start == None)
            && (j in {DepositionSent, DepositionRunning} && ds == "DONE" ==> j' == Complete && start == None)
  {
  }

  /** A module that is in FAULT, or not healthy while the job is on it, fails the job. */
  lemma TickFails(j: JobState, p: ModuleInfo, d: ModuleInfo)
    ensures Next(j, false, p, d) == Failed <==>
              || j == Failed
              || (p.hasState && p.currentState == "FAULT") || (d.hasState && d.currentState == "FAULT")
              || (j in {PrecleanSent, PrecleanRunning} && p.registered && !p.healthy)
              || (j in {DepositionSent, DepositionRunning} && d.registered && !d.healthy)
    ensures Next(j, true, p, d) == j && StartOf(j, true, p, d) == None
  {
  }

  predicate AllSee(es: seq<JobEvent>, ps: string, ds: string) {
    forall e | e in es :: e.Tick? && !e.pending && SeenIn(e.preclean, ps) && SeenIn(e.deposition, ds)
  }

  /** Sights that tell a job nothing new. */
  predicate NothingNew(j: JobState, ps: string, ds: string) {
    || (j == PrecleanSent && ps == "IDLE" && ds == "IDLE")
    || (j == PrecleanRunning && ps == "PROCESSING" && ds == "IDLE")
    || (j == DepositionSent && ps == "DONE" && ds == "IDLE")
    || (j == DepositionRunning && ps == "DONE" && ds == "PROCESSING")
    || (j == Complete && ps == "DONE" && ds == "DONE")
  }

  lemma OneTickMore(es: seq<JobEvent>, e: JobEvent)
    requires e.Tick?
    ensures Job(es + [e]) == Next(Job(es), e.pending, e.preclean, e.deposition)
    ensures var d := StartOf(Job(es), e.pending, e.preclean, e.deposition);
            Starts(es + [e]) == Starts(es) + (if d.Some? then [d.value] else [])
  {
    var fs := es + [e];
    assert fs[..|es|] == es && fs[|fs| - 1] == e;
  }

  lemma Unlast(ws: seq<JobEvent>, ps: string, ds: string) returns (fs: seq<JobEvent>, w: JobEvent)
    requires AllSee(ws, ps, ds) && ws != []
    ensures ws == fs + [w] && AllSee(fs, ps, ds) && AllSee([w], ps, ds)
  {
    fs, w := ws[..|ws| - 1], ws[|ws| - 1];
    assert w in ws && forall x | x in fs :: x in ws;
  }

  lemma NothingNewTick(es: seq<JobEvent>, w: JobEvent, j: JobState, ps: string, ds: string)
    requires Job(es) == j && AllSee([w], ps, ds) && NothingNew(j, ps, ds)
    ensures Job(es + [w]) == j && Starts(es + [w]) == Starts(es)
  {
    assert w in [w];
    OneTickMore(es, w);
  }

  lemma {:induction false} NothingNewRun(es: seq<JobEvent>, ws: seq<JobEvent>, ps: string, ds: string)
    requires AllSee(ws, ps, ds) && NothingNew(Job(es), ps, ds)
    ensures Job(es + ws) == Job(es) && Starts(es + ws) == Starts(es)
    decreases |ws|
  {
    if ws == [] {
      assert es + ws == es;
    } else {
      var fs, w := Unlast(ws, ps, ds);
      NothingNewRun(es, fs, ps, ds);
      NothingNewTick(es + fs, w, Job(es), ps, ds);
      Associative(es, fs, [w]);
    }
  }

  lemma Associative(a: seq<JobEvent>, b: seq<JobEvent>, c: seq<JobEvent>)
    ensures (a + b) + c == a + (b + c)
  {
  }

  /** The first sight moves the job to j', the others tell it nothing new. */
  lemma Phase(es: seq<JobEvent>, ws: seq<JobEvent>, ps: string, ds: string, j': JobState, start: seq<u32>)
    requires ws != [] && AllSee(ws, ps, ds) && ps != "FAULT" && ds != "FAULT" && NothingNew(j', ps, ds)
    requires var e := ws[0];
             e.Tick? && Next(Job(es), e.pending, e.preclean, e.deposition) == j'
             && start == match StartOf(Job(es), e.pending, e.preclean, e.deposition) case None => [] case Some(d) => [d]
    ensures Job(es + ws) == j' && Starts(es + ws) == Starts(es) + start
  {
    assert ws[0] in ws;
    Part(ws, ps, ds, 1, |ws|);
    SplitFirst(es, ws);
    OneTickMore(es, ws[0]);
    NothingNewRun(es + [ws[0]], ws[1..], ps, ds);
  }

  /** Job progress: if the modules go through their states, each seen for any number of ticks, the job starts device 1, then
      device 2, and completes. */
  lemma JobCompletes(a: seq<JobEvent>, b: seq<JobEvent>, c: seq<JobEvent>, d: seq<JobEvent>, e: seq<JobEvent>)
    requires AllSee(a, "IDLE", "IDLE") && AllSee(b, "PROCESSING", "IDLE") && AllSee(c, "DONE", "IDLE")
    requires AllSee(d, "DONE", "PROCESSING") && AllSee(e, "DONE", "DONE")
    requires |a| >= 1 && |b| >= 1 && |c| >= 2 && |d| >= 1 && |e| >= 1
    ensures Job(a + b + c + d + e) == Complete && Starts(a + b + c + d + e) == [1, 2]
  {
    First(a, b);
    Middle(a + b, c);
    Last(a + b + c, d, e);
  }

  lemma PrecleanEnds(es: seq<JobEvent>, e: JobEvent)
    requires Job(es) == PrecleanRunning && AllSee([e], "DONE", "IDLE")
    ensures Job(es + [e]) == PrecleanDone && Starts(es + [e]) == Starts(es)
  {
    assert e in [e];
    TickMovesOn(PrecleanRunning, e.preclean, e.deposition, "DONE", "IDLE");
    OneTickMore(es, e);
  }

  lemma DepositionBegins(es: seq<JobEvent>, c: seq<JobEvent>)
    requires Job(es) == PrecleanDone && AllSee(c, "DONE", "IDLE") && |c| >= 1
    ensures Job(es + c) == DepositionSent && Starts(es + c) == Starts(es) + [2]
  {
    assert c[0] in c;
    TickMovesOn(PrecleanDone, c[0].preclean, c[0].deposition, "DONE", "IDLE");
    Phase(es, c, "DONE", "IDLE", DepositionSent, [2]);
  }

  lemma Middle(es: seq<JobEvent>, c: seq<JobEvent>)
    requires Job(es) == PrecleanRunning && Starts(es) == [1] && AllSee(c, "DONE", "IDLE") && |c| >= 2
    ensures Job(es + c) == DepositionSent && Starts(es + c) == [1, 2]
  {
    var c0, cs := c[0], c[1..];
    Part(c, "DONE", "IDLE", 0, 1);
    Part(c, "DONE", "IDLE", 1, |c|);
    assert c[0..1] == [c0] && c[1..|c|] == cs;
    PrecleanEnds(es, c0);
    DepositionBegins(es + [c0], cs);
    SplitFirst(es, c);
  }

  lemma SplitFirst(es: seq<JobEvent>, c: seq<JobEvent>)
    requires c != []
    ensures (es + [c[0]]) + c[1..] == es + c
  {
  }

  lemma Part(c: seq<JobEvent>, ps: string, ds: string, i: nat, j: nat)
    requires AllSee(c, ps, ds) && i <= j <= |c|
    ensures AllSee(c[i..j], ps, ds)
  {
    assert forall x | x in c[i..j] :: x in c;
  }

  lemma First(a: seq<JobEvent>, b: seq<JobEvent>)
    requires AllSee(a, "IDLE", "IDLE") && AllSee(b, "PROCESSING", "IDLE") && |a| >= 1 && |b| >= 1
    ensures Job(a + b) == PrecleanRunning && Starts(a + b) == [1]
  {
    PrecleanBegins([], a);
    Unprefixed(a);
    Moves(a, b, PrecleanSent, "PROCESSING", "IDLE", PrecleanRunning);
  }

  lemma Unprefixed(a: seq<JobEvent>)
    ensures [] + a == a
  {
  }

  lemma PrecleanBegins(es: seq<JobEvent>, a: seq<JobEvent>)
    requires Job(es) == Idle && AllSee(a, "IDLE", "IDLE") && |a| >= 1
    ensures Job(es + a) == PrecleanSent && Starts(es + a) == Starts(es) + [1]
  {
    assert a[0] in a;
    TickMovesOn(Idle, a[0].preclean, a[0].deposition, "IDLE", "IDLE");
    Phase(es, a, "IDLE", "IDLE", PrecleanSent, [1]);
  }

  /** A phase that starts nothing. */
  lemma Moves(es: seq<JobEvent>, ws: seq<JobEvent>, j: JobState, ps: string, ds: string, j': JobState)
    requires Job(es) == j && AllSee(ws, ps, ds) && |ws| >= 1
    requires
      || (j == PrecleanSent && ps == "PROCESSING" && ds == "IDLE" && j' == PrecleanRunning)
      || (j == DepositionSent && ps == "DONE" && ds == "PROCESSING" && j' == DepositionRunning)
      || (j == DepositionRunning && ps == "DONE" && ds == "DONE" && j' == Complete)
    ensures Job(es + ws) == j' && Starts(es + ws) == Starts(es)
  {
    assert ws[0] in ws;
    TickMovesOn(j, ws[0].preclean, ws[0].deposition, ps, ds);
    Phase(es, ws, ps, ds, j', []);
  }

  lemma Last(es: seq<JobEvent>, d: seq<JobEvent>, e: seq<JobEvent>)
    requires Job(es) == DepositionSent && Starts(es) == [1, 2]
    requires AllSee(d, "DONE", "PROCESSING") && AllSee(e, "DONE", "DONE") && |d| >= 1 && |e| >= 1
    ensures Job(es + d + e) == Complete && Starts(es + d + e) == [1, 2]
  {
    Moves(es, d, DepositionSent, "DONE", "PROCESSING", DepositionRunning);
    Moves(es + d, e, DepositionRunning, "DONE", "DONE", Complete);
  }

  // ----- what the composed daemon makes of it

  /** The job state after a START to dev. */
  function SentTo(dev: u32): JobState {
    if dev == 1 then PrecleanSent else DepositionSent
  }

  /** The started module is not seen unhealthy, PROCESSING or DONE, and neither module is seen in FAULT. */
  predicate KeepsWaiting(dev: u32, p: ModuleInfo, d: ModuleInfo) {
    var m := if dev == 1 then p else d;
    && (m.registered ==> m.healthy) && !Shows(m, "PROCESSING") && !Shows(m, "DONE")
    && !Shows(p, "FAULT") && !Shows(d, "FAULT")
  }

  /** A tick through which a job that has sent its START to dev goes on waiting. */
  predicate WaitTick(dev: u32, e: JobEvent) {
    e.Tick? && (e.pending || KeepsWaiting(dev, e.preclean, e.deposition))
  }

  function Run(j: JobState, es: seq<JobEvent>): JobState
    decreases |es|
  {
    if es == [] then j else Run(After(j, es[0]), es[1..])
  }

  /** A tick ends the wait for a START unless a request is pending or the modules look as before; it never repeats it. */
  lemma WaitEnds(dev: u32, pending: bool, p: ModuleInfo, d: ModuleInfo)
    requires dev in {1, 2}
    ensures Next(SentTo(dev), pending, p, d) == SentTo(dev) <==> WaitTick(dev, Tick(pending, p, d))
    ensures StartOf(SentTo(dev), pending, p, d) == None
  {
  }

  /** Ticks never lead back. */
  lemma {:induction false} RanksClimb(j: JobState, es: seq<JobEvent>)
    requires forall e | e in es :: e.Tick?
    ensures Rank(j) <= Rank(Run(j, es))
    decreases |es|
  {
    if es != [] {
      assert es[0] in es && forall e | e in es[1..] :: e in es;
      RanksClimb(After(j, es[0]), es[1..]);
    }
  }

  lemma TickClimbs(j: JobState, e: JobEvent)
    requires e.Tick?
    ensures After(j, e) == j || Rank(j) < Rank(After(j, e))
  {
  }

  /** A START that was lost is never repeated, for either device: through a run of ticks the job goes on waiting for it
      if and only if every tick leaves it waiting. */
  lemma {:induction false} LostStartIsNotRetried(dev: u32, es: seq<JobEvent>)
    requires dev in {1, 2} && forall e | e in es :: e.Tick?
    ensures Run(SentTo(dev), es) == SentTo(dev) <==> forall e | e in es :: WaitTick(dev, e)
    decreases |es|
  {
    if es != [] {
      var e := es[0];
      assert e in es && forall x | x in es[1..] :: x in es;
      WaitEnds(dev, e.pending, e.preclean, e.deposition);
      if WaitTick(dev, e) {
        LostStartIsNotRetried(dev, es[1..]);
        assert forall x | x in es :: x == e || x in es[1..];
      } else {
        TickClimbs(SentTo(dev), e);
        RanksClimb(After(SentTo(dev), e), es[1..]);
      }
    }
  }

  /** Over modules whose state was never recorded a tick starts nothing and completes nothing. */
  lemma StatelessTick(j: JobState, pending: bool, p: ModuleInfo, d: ModuleInfo)
    requires !p.hasState && !d.hasState
    ensures StartOf(j, pending, p, d) == None
    ensures j in {Idle, Stopped, Complete, Failed} ==> Next(j, pending, p, d) == j
    ensures Next(j, pending, p, d) in {j, Failed}
  {
  }
}
