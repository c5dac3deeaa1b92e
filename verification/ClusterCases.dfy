/** A run of PMC and simulator in which a command that passed the interlock is refused. */
module ClusterCases {
  import opened Wrappers
  import opened Ints
  import M = Messages
  import opened Fsm
  import opened Sim
  import opened Cluster
  import P = Pmc

  function Command(t: M.MsgType, seqNo: u32): M.Message {
    M.Blank(M.Req, t).(dev := Some(1), seqNo := Some(seqNo))
  }

  lemma RunSnoc(devs: seq<u32>, acts: seq<Action>, a: Action)
    ensures Run(devs, acts + [a]) == Step(Run(devs, acts), a)
  {
    assert (acts + [a])[..|acts|] == acts;
  }

  lemma OneLineSteps(l: Line, q: seq<M.Message>)
    ensures l.up != [] ==>
              Step(System([l], q), PmcReads(0)) == System([LineRead(l)], if P.Reports(l.conn, l.up[0]) then q + [l.up[0]] else q)
    ensures forall k: nat | k <= |l.down| :: Step(System([l], q), SimIterates(0, k)) == System([Iterated(l, k)], q)
  {
    assert forall x: Line :: [l][0 := x] == [x];
  }

  /** What the PMC knows of simulator 1 after its registration and a report. */
  function Known(cached: string): P.Peer {
    P.UNREGISTERED.(kind := P.Registered(P.UNREGISTERED, RegisterEvt(1)).kind, registered := true, devId := 1, cached := Some(cached))
  }

  lemma Registered(l: Line)
    requires l == Opened(1)
    ensures LineRead(LineRead(l)) == l.(up := [], conn := Known("IDLE"))
  {
    assert l.up == [RegisterEvt(1), StatusEvt(1, Idle)];
    assert l.up[1..] == [StatusEvt(1, Idle)] && LineRead(l).up[1..] == [];
    TextFits(Idle);
  }

  lemma Introduced() returns (acts: seq<Action>, q: seq<M.Message>)
    ensures Run([1], acts) == System([Opened(1).(up := [], conn := Known("IDLE"))], q)
  {
    var l := Opened(1);
    assert Init([1]) == System([l], []);
    RunSnoc([1], [], PmcReads(0));
    OneLineSteps(l, []);
    Registered(l);
    var s := Run([1], [] + [PmcReads(0)]);
    RunSnoc([1], [] + [PmcReads(0)], PmcReads(0));
    OneLineSteps(LineRead(l), s.toEqd);
    acts := [] + [PmcReads(0)] + [PmcReads(0)];
    q := Run([1], acts).toEqd;
  }

  /** A command on a quiet line goes straight to the simulator. */
  lemma Routed(l: Line, q: seq<M.Message>, m: M.Message)
    requires P.Serves(l.conn, 1) && m.dev == Some(1) && P.IsCommand(m.typ) && P.Interlock(l.conn.cached, m.typ)
    ensures TargetLine(System([l], q), m) == 0 && P.VerdictOn(TargetConn(System([l], q), m), m, None, None).ToSim?
    ensures Asked(System([l], q), m, None, None) == System([l.(down := l.down + [m])], q)
  {
    var ps := seq(1, i requires 0 <= i < 1 => [l][i].conn);
    assert P.FirstServing(ps, 1) == 0;
    assert TargetConn(System([l], q), m) == Some(l.conn);
  }

  lemma StartRuns(n: Node, m: M.Message)
    requires n.fsm == Fsm(Idle, 0) && n.last == Idle && m == Command(M.Start, 1)
    ensures NextNode(n, [m]).fsm == Fsm(Processing, 0)
    ensures |Reports(n, [m])| == 3 && Reports(n, [m])[0].typ == M.Start && Reports(n, [m])[0].state == None
    ensures Reports(n, [m])[1] == StatusEvt(n.devId, Processing) && Reports(n, [m])[2].typ == M.Telemetry
  {
    assert [m][..0] == [];
    assert Batch(n.devId, n.fsm, []) == Batched(n.fsm, []);
    assert Batch(n.devId, n.fsm, [m]) == Batched(Fsm(Ready, 0), [] + Answer(n.devId, n.fsm, m));
  }

  lemma Reported(l: Line)
    requires l.conn == Known("IDLE") && |l.up| == 3 && l.up[0].typ == M.Start && l.up[1] == StatusEvt(1, Processing)
    ensures LineRead(LineRead(l)) == l.(up := l.up[2..], conn := Known("PROCESSING"))
  {
    assert l.up[1..][1..] == l.up[2..];
    TextFits(Processing);
  }

  lemma Ordered() returns (acts: seq<Action>, l: Line, q: seq<M.Message>)
    ensures Run([1], acts) == System([l], q)
    ensures l == Opened(1).(up := [], conn := Known("IDLE"), down := [Command(M.Start, 1)])
  {
    var start := Command(M.Start, 1);
    var as0;
    as0, q := Introduced();
    var l0 := Opened(1).(up := [], conn := Known("IDLE"));
    Routed(l0, q, start);
    RunSnoc([1], as0, EqdAsks(start, None, None));
    assert l0.down + [start] == [start];
    acts := as0 + [EqdAsks(start, None, None)];
    l := l0.(down := [start]);
  }

  /** A reachable system in which simulator 1 has just started processing and the PMC knows it. */
  lemma Started() returns (acts: seq<Action>, l: Line, q: seq<M.Message>)
    ensures Run([1], acts) == System([l], q)
    ensures l.conn == Known("PROCESSING") && l.node.fsm == Fsm(Processing, 0) && l.node.devId == 1 && l.down == []
    ensures forall m | m in l.up :: !IsReport(m)
  {
    var as1, l1, q0 := Ordered();
    var as2, l2 := Processing1(as1, l1, q0);
    OneLineSteps(l2, q0);
    Reported(l2);
    RunSnoc([1], as2, PmcReads(0));
    var s3 := Run([1], as2 + [PmcReads(0)]);
    RunSnoc([1], as2 + [PmcReads(0)], PmcReads(0));
    OneLineSteps(LineRead(l2), s3.toEqd);
    acts := as2 + [PmcReads(0)] + [PmcReads(0)];
    l := LineRead(LineRead(l2));
    q := Run([1], acts).toEqd;
  }

  lemma Processing1(acts: seq<Action>, l: Line, q: seq<M.Message>) returns (acts': seq<Action>, l': Line)
    requires Run([1], acts) == System([l], q)
    requires l == Opened(1).(up := [], conn := Known("IDLE"), down := [Command(M.Start, 1)])
    ensures Run([1], acts') == System([l'], q)
    ensures l'.conn == Known("IDLE") && l'.node.fsm == Fsm(Processing, 0) && l'.node.devId == 1 && l'.down == []
    ensures |l'.up| == 3 && l'.up[0].typ == M.Start && l'.up[1] == StatusEvt(1, Processing) && l'.up[2].typ == M.Telemetry
  {
    OneLineSteps(l, q);
    RunSnoc([1], acts, SimIterates(0, 1));
    assert l.down[..1] == [Command(M.Start, 1)] && l.down[1..] == [];
    StartRuns(l.node, Command(M.Start, 1));
    acts' := acts + [SimIterates(0, 1)];
    l' := Iterated(l, 1);
    assert l'.up == Reports(l.node, [Command(M.Start, 1)]);
  }

  /** In a reachable system a STOP passes the interlock, is five iterations on its way, and is refused: processing
      has run out. Handled at once it would have been accepted. */
  lemma LateStop() returns (acts: seq<Action>)
    ensures var s := Run([1], acts);
            var stop := Command(M.Stop, 2);
            && |s.lines| == 1 && s.lines[0].node.fsm == Fsm(Processing, 0)
            && P.VerdictOn(TargetConn(s, stop), stop, None, None).ToSim?
            && var l := Asked(s, stop, None, None).lines[0];
            && M.IsRefusal(Sim.Reports(Idled(l, 5).node, [stop])[0], stop, 500, "SIM_CMD_FAILED")
            && M.IsConsent(Sim.Reports(l.node, [stop])[0], stop)
  {
    var l, q;
    acts, l, q := Started();
    var s, stop := Run([1], acts), Command(M.Stop, 2);
    CacheFollowsSimulator([1], acts);
    Routed(l, q, stop);
    RoutedCommandOutcome(s, 0, stop, 5);
    RoutedCommandOutcome(s, 0, stop, 0);
  }
}
