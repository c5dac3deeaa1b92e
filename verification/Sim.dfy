/** The simulator node: batch of commands, tick, report. */
module Sim {
  import opened Wrappers
  import opened Ints
  import M = Messages
  import opened Fsm
  import opened ProcessModel

  type Message = M.Message

  function CmdOf(t: M.MsgType): Cmd {
    match t
    case Start => CmdStart
    case Stop => CmdStop
    case Reset => CmdReset
    case Fault => CmdFault
    case _ => CmdNone
  }

  /** The response to a request, given whether the command was accepted; dev is the simulator's own. */
  function Reply(devId: u32, req: Message, accepted: bool): Message {
    var r := M.Blank(M.Resp, req.typ).(seqNo := req.seqNo, dev := Some(devId));
    if accepted then r.(ok := Some(1))
    else r.(ok := Some(0), typ := M.Error, code := Some(500), msg := Some("SIM_CMD_FAILED"))
  }

  function RegisterEvt(devId: u32): Message {
    M.Blank(M.Evt, M.Register).(dev := Some(devId))
  }

  function StatusEvt(devId: u32, s: SimState): Message {
    M.Blank(M.Evt, M.Status).(dev := Some(devId), state := Some(StateText(s)))
  }

  function Hundredths(x: real): int {
    (x * 100.0 + 0.5).Floor
  }

  function TelemetryEvt(devId: u32, m: Model): Message {
    M.Blank(M.Evt, M.Telemetry).(
      dev := Some(devId), temp := Some(Hundredths(m.temp)),
      pressure := Some(Hundredths(m.pressure)), flow := Some(Hundredths(m.flow)))
  }

  /** sim_handle_message. */
  function Handled(f: Fsm, req: Message): Fsm {
    if req.role == M.Req then Commanded(f, CmdOf(req.typ)) else f
  }

  function Answer(devId: u32, f: Fsm, req: Message): seq<Message> {
    if req.role == M.Req then [Reply(devId, req, Accepts(f.state, CmdOf(req.typ)))] else []
  }

  /** The states in which a device takes a request's command. */
  predicate Takes(s: SimState, t: M.MsgType) {
    match t
    case Start => s in {Idle, Ready}
    case Stop => s == Processing
    case Reset => s == SimState.Fault
    case Fault => true
    case _ => false
  }

  /** What the answer tells its reader, field by field: yes exactly if the device takes the command, else ERROR 500; and the
      device moves exactly if it says yes. Only requests are answered. */
  lemma AnswerSays(devId: u32, f: Fsm, req: Message)
    ensures req.role != M.Req ==> Answer(devId, f, req) == [] && Handled(f, req) == f
    ensures req.role == M.Req ==>
              var own := req.(dev := Some(devId));
              && |Answer(devId, f, req)| == 1
              && if Takes(f.state, req.typ) then M.IsConsent(Answer(devId, f, req)[0], own)
                 else M.IsRefusal(Answer(devId, f, req)[0], own, 500, "SIM_CMD_FAILED") && Handled(f, req) == f
  {
  }

  datatype Batched = Batched(fsm: Fsm, outs: seq<Message>)

  /** The messages of one read, in order. */
  function Batch(devId: u32, f: Fsm, ins: seq<Message>): Batched {
    if ins == [] then Batched(f, [])
    else
      var b := Batch(devId, f, ins[..|ins| - 1]);
      var m := ins[|ins| - 1];
      Batched(Handled(b.fsm, m), b.outs + Answer(devId, b.fsm, m))
  }

  datatype Node = Node(devId: u32, fsm: Fsm, last: SimState, model: Model)

  function Booted(devId: u32): Node {
    Node(devId, Fsm(Idle, 0), Idle, AMBIENT)
  }

  function NextNode(n: Node, ins: seq<Message>): Node {
    var f := Ticked(Batch(n.devId, n.fsm, ins).fsm);
    Node(n.devId, f, f.state, Updated(Applied(n.model, f.state)))
  }

  /** Everything one iteration sends: the responses, a status event on a change, telemetry. */
  function Reports(n: Node, ins: seq<Message>): seq<Message> {
    var n' := NextNode(n, ins);
    Batch(n.devId, n.fsm, ins).outs
    + (if n'.last != n.last then [StatusEvt(n.devId, n'.last)] else [])
    + [TelemetryEvt(n.devId, n'.model)]
  }

  /** Between the responses and the telemetry there is one status event, with the new state's word, exactly if the state is
      another than the one last reported. */
  lemma StatusSays(n: Node, ins: seq<Message>)
    ensures var rs, b, s := Reports(n, ins), Batch(n.devId, n.fsm, ins).outs, NextNode(n, ins).fsm.state;
            && |rs| == |b| + (if s != n.last then 2 else 1) && rs[..|b|] == b
            && (s != n.last ==>
                  rs[|b|] == M.Message(M.Evt, M.Status, Some(n.devId), None, None, None, Some(StateText(s)), None, None, None, None))
            && NextNode(n, ins).last == s
  {
    assert Reports(n, ins)[..|Batch(n.devId, n.fsm, ins).outs|] == Batch(n.devId, n.fsm, ins).outs;
  }

  /** The last thing an iteration sends is telemetry, and each of its fields carries its own value of the chamber, to the
      nearest hundredth. */
  lemma TelemetrySays(n: Node, ins: seq<Message>)
    ensures var rs := Reports(n, ins);
            && rs != []
            && var t, m := rs[|rs| - 1], NextNode(n, ins).model;
            && t.role == M.Evt && t.typ == M.Telemetry && t.dev == Some(n.devId)
            && t.temp.Some? && t.pressure.Some? && t.flow.Some?
            && -0.5 <= 100.0 * m.temp - t.temp.value as real < 0.5
            && -0.5 <= 100.0 * m.pressure - t.pressure.value as real < 0.5
            && -0.5 <= 100.0 * m.flow - t.flow.value as real < 0.5
  {
    var m := NextNode(n, ins).model;
    Nearest(m.temp);
    Nearest(m.pressure);
    Nearest(m.flow);
  }

  lemma Nearest(x: real)
    ensures -0.5 <= 100.0 * x - Hundredths(x) as real < 0.5
  {
  }

  /** sim_ctx_t with main's last_state. */
  class Simulator {
    const devId: u32
    const machine: Machine
    const process: Process
    var last: SimState
    var outbox: seq<Message>

    ghost function View(): Node
      reads this, machine, process
    {
      Node(devId, machine.View(), last, process.View())
    }

    /** Start-up: register, tick out of BOOTING, report IDLE. */
    constructor (devId: u32)
      ensures View() == Booted(devId)
      ensures outbox == [M.Message(M.Evt, M.Register, Some(devId), None, None, None, None, None, None, None, None),
                         M.Message(M.Evt, M.Status, Some(devId), None, None, None, Some("IDLE"), None, None, None, None)]
      ensures fresh(machine) && fresh(process)
    {
      this.devId := devId;
      machine := new Machine();
      process := new Process();
      outbox := [RegisterEvt(devId)];
      last := Booting;
      new;
      machine.Tick();
      last := machine.state;
      outbox := outbox + [StatusEvt(devId, machine.state)];
    }

    method HandleMessage(req: Message) returns (out: Option<Message>)
      modifies machine
      ensures machine.View() == Handled(old(machine.View()), req)
      ensures (match out case None => [] case Some(r) => [r]) == Answer(devId, old(machine.View()), req)
      ensures out.Some? <==> req.role == M.Req
      ensures out.Some? && Takes(old(machine.state), req.typ) ==> M.IsConsent(out.value, req.(dev := Some(devId)))
      ensures out.Some? && !Takes(old(machine.state), req.typ) ==>
                M.IsRefusal(out.value, req.(dev := Some(devId)), 500, "SIM_CMD_FAILED")
    {
      if req.role != M.Req {
        return None;
      }
      var rc := machine.HandleCommand(CmdOf(req.typ));
      var r := M.Blank(M.Resp, req.typ).(seqNo := req.seqNo, dev := Some(devId));
      if rc == 0 {
        r := r.(ok := Some(1));
      } else {
        r := r.(ok := Some(0), typ := M.Error, code := Some(500), msg := Some("SIM_CMD_FAILED"));
      }
      out := Some(r);
    }

    /** One pass of the main loop over the messages that were read. */
    method Iteration(ins: seq<Message>)
      modifies this, machine, process
      ensures View() == NextNode(old(View()), ins)
      ensures outbox == old(outbox) + Reports(old(View()), ins)
    {
      ghost var f := machine.View();
      var outs := [];
      var i := 0;
      while i < |ins|
        invariant 0 <= i <= |ins|
        invariant Batched(machine.View(), outs) == Batch(devId, f, ins[..i])
        invariant process.View() == old(process.View()) && last == old(last) && outbox == old(outbox)
      {
        var out := HandleMessage(ins[i]);
        assert ins[..i + 1][..i] == ins[..i];
        if out.Some? {
          outs := outs + [out.value];
        }
        i := i + 1;
      }
      assert ins[..|ins|] == ins;
      machine.Tick();
      if machine.state != last {
        outs := outs + [StatusEvt(devId, machine.state)];
        last := machine.state;
      }
      process.ApplyState(machine.state);
      process.Update();
      outs := outs + [TelemetryEvt(devId, Model(process.temp, process.pressure, process.flow, process.heaterOn, process.pumpOn))];
      outbox := outbox + outs;
    }
  }
}
