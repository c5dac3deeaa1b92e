/** The PMC: interlock, request decisions and routing between equipmentd and the simulators. */
module Pmc {
  import opened Wrappers
  import opened Ints
  import opened Text
  import opened Messages
  import opened Codec
  import opened CodecBuffers
  import opened PmcConnections
  import opened AuxLink
  import F = Fsm
  import Sim

  const OUTBUF := 512

  /** pmc_interlock_check on the cached state of the target, None when none was reported yet. */
  predicate Interlock(cached: Option<string>, t: MsgType) {
    cached.Some? &&
    match t
    case Start => cached.value == "IDLE"
    case Stop => cached.value == "PROCESSING"
    case Reset => cached.value == "FAULT"
    case _ => true
  }

  datatype SeqAction = RouteToSim | RespondCached | RejectMissingDev | RejectSimNotFound | RejectInterlock

  /** pmc_sequence_decide_eqd_request. */
  function Decide(hasSim: bool, cached: Option<string>, m: Message): SeqAction {
    if m.dev.None? then RejectMissingDev
    else if !hasSim then RejectSimNotFound
    else if m.typ == Status then RespondCached
    else if !Interlock(cached, m.typ) then RejectInterlock
    else RouteToSim
  }

  predicate IsCommand(t: MsgType) {
    t == Start || t == Stop || t == Reset || t == Fault
  }

  /** The string interlock and the device's guard agree exactly except for START in READY,
      which the device takes and the interlock blocks; READY is never reported. */
  lemma InterlockIsGuard(s: F.SimState, t: MsgType)
    requires IsCommand(t)
    ensures (Interlock(Some(F.StateText(s)), t) <==> F.Accepts(s, Sim.CmdOf(t))) <==> !(s == F.Ready && t == Start)
  {
  }

  function StatusReply(req: Message, cached: Option<string>, note: Option<string>): Message {
    OkReply(req).(typ := Status, msg := note,
      state := Some(match cached case None => "UNKNOWN" case Some(s) => Take(s, STATE_MAX)))
  }

  /** What equipmentd is told when the request is not routed. */
  function LocalReply(a: SeqAction, m: Message, cached: Option<string>, note: Option<string>): Message
    requires a != RouteToSim
  {
    match a
    case RejectMissingDev => ErrorReply(m, 400, "MISSING_DEV")
    case RejectSimNotFound => ErrorReply(m, 404, "SIM_NOT_FOUND")
    case RespondCached => StatusReply(m, cached, note)
    case RejectInterlock => ErrorReply(m, 409, "PMC_INTERLOCK_BLOCKED")
  }

  /** The packet pmc_io_send_message puts on the wire. */
  function Sent(fd: int, m: Message, wr: bool): seq<Packet> {
    if Format(m, OUTBUF).Some? && wr then [Packet(fd, Format(m, OUTBUF).value)] else []
  }

  function CachedState(c: Conn): Option<string>
    reads c
  {
    if c.hasState then Some(c.state) else None
  }

  /** The effect of a message from a simulator on its cached state. */
  function Cache(cached: Option<string>, m: Message): Option<string> {
    if m.typ == Status && m.state.Some? then Some(Take(m.state.value, STATE_MAX)) else cached
  }

  function AuxRefusal(m: Message, e: AuxError): Message {
    ErrorReply(m, 502, ErrorText(e))
  }

  // ----- a peer, and what a message from it or for it does

  /** What the PMC keeps of a connection. */
  datatype Peer = Peer(kind: PeerType, registered: bool, devId: int, cached: Option<string>)

  const UNREGISTERED := Peer(PeerUnknown, false, -1, None)

  function PeerOf(c: Conn): Peer
    reads c
  {
    Peer(c.peer, c.registered, c.devId, CachedState(c))
  }

  function Registered(p: Peer, m: Message): Peer {
    if m.typ != Register then p
    else if m.role == Req then p.(kind := PeerEqd, registered := true, devId := -1)
    else if m.role == Evt && m.dev.Some? then p.(kind := PeerSim, registered := true, devId := ToI32(m.dev.value))
    else p
  }

  /** The message is a request of equipmentd. */
  predicate Asks(p: Peer, m: Message) {
    p.registered && m.typ != Register && p.kind == PeerEqd
  }

  /** The message is a simulator's, to be passed on to equipmentd. */
  predicate Reports(p: Peer, m: Message) {
    p.registered && m.typ != Register && p.kind == PeerSim
  }

  /** The entry of a peer after a message from it. */
  function PeerAfter(p: Peer, m: Message): Peer {
    if !p.registered then Registered(p, m)
    else if Reports(p, m) then p.(cached := Cache(p.cached, m))
    else p
  }

  /** A registered simulator of the device. */
  predicate Serves(p: Peer, devId: int) {
    p.registered && p.kind == PeerSim && p.devId == devId
  }

  /** The newest entry that serves the device, in a list with the newest first; |ps| if none does. */
  function FirstServing(ps: seq<Peer>, devId: int): (i: nat)
    ensures i <= |ps| && forall j | 0 <= j < i :: !Serves(ps[j], devId)
    ensures i < |ps| ==> Serves(ps[i], devId)
  {
    if ps == [] || Serves(ps[0], devId) then 0 else 1 + FirstServing(ps[1..], devId)
  }

  function PeersOf(nodes: seq<Conn>): seq<Peer>
    reads nodes
  {
    seq(|nodes|, i requires 0 <= i < |nodes| reads nodes => PeerOf(nodes[i]))
  }

  /** The lookup in the linked list is that of the list of entries. */
  lemma LookupOnEntries(list: ConnList, devId: int)
    ensures list.SimIndex(devId) == FirstServing(PeersOf(list.nodes), devId)
  {
    var i, k := list.SimIndex(devId), FirstServing(PeersOf(list.nodes), devId);
    assert i < |list.nodes| ==> Serves(PeersOf(list.nodes)[i], devId);
    assert k < |list.nodes| ==> IsSim(list.nodes[k], devId);
  }

  function TargetPeer(target: Conn?): Option<Peer>
    reads target
  {
    if target == null then None else Some(PeerOf(target))
  }

  function CachedOf(target: Option<Peer>): Option<string> {
    match target
    case None => None
    case Some(p) => p.cached
  }

  function Action(target: Option<Peer>, m: Message): SeqAction {
    Decide(target.Some?, CachedOf(target), m)
  }

  datatype Verdict = ToAsker(reply: Message) | ToSim

  /** What becomes of a request: it goes to its simulator, or the asker is answered. */
  function VerdictOn(target: Option<Peer>, m: Message, note: Option<string>, error: Option<AuxError>): (v: Verdict)
    ensures v.ToSim? ==> target.Some? && error.None? && Interlock(target.value.cached, m.typ)
    ensures v.ToAsker? ==> Echoes(m, v.reply)
  {
    var a := Action(target, m);
    if a != RouteToSim then ToAsker(LocalReply(a, m, CachedOf(target), note))
    else if error.Some? then ToAsker(AuxRefusal(m, error.value))
    else ToSim
  }

  /** The text of the interlock's table: the state that the simulator must have reported last. */
  predicate MayPass(cached: Option<string>, t: MsgType) {
    match t
    case Start => cached == Some("IDLE")
    case Stop => cached == Some("PROCESSING")
    case Reset => cached == Some("FAULT")
    case _ => cached != None
  }

  /** What becomes of a request, field by field. */
  lemma VerdictSays(target: Option<Peer>, m: Message, note: Option<string>, error: Option<AuxError>)
    ensures var v := VerdictOn(target, m, note, error);
            var r := if v.ToAsker? then v.reply else m;
            if m.dev == None then v.ToAsker? && IsRefusal(r, m, 400, "MISSING_DEV")
            else if target == None then v.ToAsker? && IsRefusal(r, m, 404, "SIM_NOT_FOUND")
            else if m.typ == Status then
              v.ToAsker? && r.role == Resp && r.typ == Status && r.dev == m.dev && r.seqNo == m.seqNo && r.ok == Some(1)
              && r.code == None && r.msg == note
              && r.state == Some(if target.value.cached == None then "UNKNOWN" else Take(target.value.cached.value, STATE_MAX))
            else if !MayPass(target.value.cached, m.typ) then v.ToAsker? && IsRefusal(r, m, 409, "PMC_INTERLOCK_BLOCKED")
            else if error.Some? then v.ToAsker? && IsRefusal(r, m, 502, ErrorText(error.value))
            else v.ToSim?
  {
  }

  /** Who registers as what, whose messages are requests, whose are reports, and what a report leaves behind. */
  lemma PeerSays(p: Peer, m: Message)
    ensures !p.registered && m.typ == Register && m.role == Req ==> PeerAfter(p, m) == Peer(PeerEqd, true, -1, p.cached)
    ensures !p.registered && m.typ == Register && m.role == Evt && m.dev.Some? ==>
              PeerAfter(p, m) == Peer(PeerSim, true, ToI32(m.dev.value), p.cached)
    ensures !p.registered && !(m.typ == Register && (m.role == Req || (m.role == Evt && m.dev.Some?))) ==> PeerAfter(p, m) == p
    ensures Asks(p, m) <==> p.registered && p.kind == PeerEqd && m.typ != Register
    ensures Reports(p, m) <==> p.registered && p.kind == PeerSim && m.typ != Register
    ensures p.registered && !(p.kind == PeerSim && m.typ == Status && m.state.Some?) ==> PeerAfter(p, m) == p
    ensures p.registered && p.kind == PeerSim && m.typ == Status && m.state.Some? ==>
              PeerAfter(p, m) == Peer(PeerSim, true, p.devId, Some(Take(m.state.value, STATE_MAX)))
  {
  }

  /** What is written: wr1 and wr2 say whether the first and the second write succeed. */
  function Routed(fromFd: int, simFd: int, m: Message, v: Verdict, wr1: bool, wr2: bool): seq<Packet> {
    match v
    case ToAsker(r) => Sent(fromFd, r, wr1)
    case ToSim =>
      var out := Sent(simFd, m, wr1);
      if out != [] then out else Sent(fromFd, ErrorReply(m, 500, "SIM_CMD_FAILED"), wr2)
  }

  /** A forwarded request is what the simulator gets; if it cannot be printed or written the asker is told. A reply goes
      to the asker alone. */
  lemma RoutedSays(fromFd: int, simFd: int, m: Message, wr1: bool, wr2: bool)
    ensures var sent := Routed(fromFd, simFd, m, ToSim, wr1, wr2);
            if wr1 && |Render(m)| + 1 <= OUTBUF then sent == [Packet(simFd, Render(m))]
            else if !wr2 then sent == []
            else |sent| == 1 && sent[0].fd == fromFd && exists r :: IsRefusal(r, m, 500, "SIM_CMD_FAILED") && sent[0].line == Render(r)
    ensures Routed(fromFd, simFd, m, ToAsker(m), wr1, wr2) ==
              if wr1 && |Render(m)| + 1 <= OUTBUF then [Packet(fromFd, Render(m))] else []
  {
    var r := ErrorReply(m, 500, "SIM_CMD_FAILED");
    FailureFits(m);
    assert IsRefusal(r, m, 500, "SIM_CMD_FAILED");
  }

  lemma FailureFits(m: Message)
    ensures Format(ErrorReply(m, 500, "SIM_CMD_FAILED"), OUTBUF) == Some(Render(ErrorReply(m, 500, "SIM_CMD_FAILED")))
  {
    assert NulFree("SIM_CMD_FAILED");
    FloatFreeSize(ErrorReply(m, 500, "SIM_CMD_FAILED"));
  }

  function FdOf(target: Conn?): int {
    if target == null then -1 else target.fd
  }

  /** When the aux device lets a request pass: a heater command for device 1 exactly when the device confirms it, any
      other exactly when there is a session, or a new one. `found` is the line as the request finds it. */
  predicate GateDecides(enabled: bool, found: SerialLine, t: seq<AuxEvent>, m: Message, error: Option<AuxError>,
                        replies: Replies, opens: Opens)
  {
    if !enabled then error.None? && t == []
    else if !found.connected then error == Some(SessionNotReady)
    else if m.dev == Some(1) && NeedsHeater(m.typ) then
      error == CommandError(m.typ, found, replies, opens) && (error.None? <==> Confirms(t, m.typ))
    else error.None?
  }

  /** A status request for device 1 carries what the device reports, if there is one; any other carries nothing and leaves
      the serial line alone. */
  ghost predicate StatusReads(enabled: bool, ready: bool, connected: bool, found: SerialLine, m: Message,
                              note: Option<string>, t: seq<AuxEvent>, degrees: TempReader, replies: Replies, opens: Opens)
  {
    if !enabled || m.dev.None? || ToI32(m.dev.value) != 1 then t == [] && note == None
    else
      var s := Reported(found, replies, opens, degrees);
      ReadBy(t, ready, connected, s, degrees) && note == NoteOf(s)
  }

  /** What a request of equipmentd makes of the serial line, and the text or the refusal that comes of it; `ready`,
      `connected` and `found` are before the request. */
  ghost predicate LineUse(a: SeqAction, m: Message, enabled: bool, ready: bool, connected: bool, found: SerialLine,
                          note: Option<string>, error: Option<AuxError>, t: seq<AuxEvent>,
                          degrees: TempReader, replies: Replies, opens: Opens)
  {
    match a
    case RespondCached =>
      error.None? && StatusReads(enabled, ready, connected, found, m, note, t, degrees, replies, opens)
    case RouteToSim =>
      && note.None? && GateDecides(enabled, found, t, m, error, replies, opens)
      && (ready && enabled && !(m.dev == Some(1) && NeedsHeater(m.typ)) ==> t == [])
    case _ => error.None? && note.None? && t == []
  }

  class Router {
    const list: ConnList
    const gate: AuxGate
    const degrees: TempReader
    var outbox: seq<Packet>

    ghost predicate Valid()
      reads this, list, list.nodes, gate
    {
      list.Valid() && gate.Valid()
    }

    constructor (gate: AuxGate, degrees: TempReader)
      requires gate.Valid()
      ensures Valid() && list.nodes == [] && outbox == [] && this.gate == gate && this.degrees == degrees && fresh(list)
    {
      this.gate, this.degrees := gate, degrees;
      list := new ConnList();
      outbox := [];
    }

    /** pmc_io_send_message. */
    method Send(fd: int, m: Message, wr: bool) returns (rc: int)
      modifies this`outbox
      ensures outbox == old(outbox) + Sent(fd, m, wr)
      ensures rc == if Sent(fd, m, wr) != [] then 0 else -1
    {
      var buf := new char[OUTBUF];
      var n := LineFormat(m, buf);
      if n <= 0 || !wr {
        return -1;
      }
      outbox := outbox + [Packet(fd, buf[..n])];
      rc := 0;
    }

    /** pmc_handle_register, for a peer that is not registered yet. */
    method HandleRegister(c: Conn, m: Message) returns (rc: int)
      requires !c.registered
      modifies c`peer, c`registered, c`devId
      ensures PeerOf(c) == Registered(old(PeerOf(c)), m)
      ensures rc == if c.registered then 1 else -1
    {
      if m.typ != Register {
        return -1;
      }
      if m.role == Req {
        c.peer, c.registered, c.devId := PeerEqd, true, -1;
        return 1;
      }
      if m.role == Evt {
        if m.dev.None? {
          return -1;
        }
        c.peer, c.registered, c.devId := PeerSim, true, ToI32(m.dev.value);
        return 1;
      }
      return -1;
    }

    /** The simulator a request is for: the most recently added registered one of its device. */
    ghost function Target(m: Message): Conn?
      requires Valid()
      reads this, list, list.nodes, gate
    {
      if m.dev.Some? && list.SimIndex(ToI32(m.dev.value)) < |list.nodes|
      then list.nodes[list.SimIndex(ToI32(m.dev.value))] else null
    }

    /** The aux device is consulted first. */
    method Forward(fromFd: int, simFd: int, m: Message, wr1: bool, wr2: bool)
      returns (rc: int, error: Option<AuxError>, ghost t: seq<AuxEvent>)
      requires Valid() && m.dev.Some?
      modifies this`outbox, gate
      ensures Valid() && gate.trace == old(gate.trace) + t && gate.enabled == old(gate.enabled)
      ensures outbox == old(outbox) +
                Routed(fromFd, simFd, m, if error.Some? then ToAsker(AuxRefusal(m, error.value)) else ToSim, wr1, wr2)
      ensures GateDecides(gate.enabled, old(gate.Found()), t, m, error, gate.replies, gate.opens)
      ensures old(gate.sessionReady) && gate.enabled && !(m.dev == Some(1) && NeedsHeater(m.typ)) ==> t == []
    {
      error, t := AskGate(m);
      var v := if error.Some? then ToAsker(AuxRefusal(m, error.value)) else ToSim;
      match v {
        case ToAsker(refusal) =>
          rc := Send(fromFd, refusal, wr1);
        case ToSim =>
          rc := SendOrReport(fromFd, simFd, m, wr1, wr2);
      }
    }

    method AskGate(m: Message) returns (error: Option<AuxError>, ghost t: seq<AuxEvent>)
      requires gate.Valid() && m.dev.Some?
      modifies gate
      ensures gate.Valid() && gate.trace == old(gate.trace) + t && gate.enabled == old(gate.enabled)
      ensures GateDecides(gate.enabled, old(gate.Found()), t, m, error, gate.replies, gate.opens)
      ensures old(gate.sessionReady) && gate.enabled && !(m.dev == Some(1) && NeedsHeater(m.typ)) ==> t == []
    {
      error, t := gate.ApplyForCommand(ToI32(m.dev.value), m.typ);
    }

    method SendOrReport(fromFd: int, simFd: int, m: Message, wr1: bool, wr2: bool) returns (rc: int)
      modifies this`outbox
      ensures outbox == old(outbox) + Routed(fromFd, simFd, m, ToSim, wr1, wr2)
    {
      rc := Send(simFd, m, wr1);
      if rc != 0 {
        rc := Send(fromFd, ErrorReply(m, 500, "SIM_CMD_FAILED"), wr2);
      }
    }

    /** A request for `target`: refused, answered from the cache, or forwarded. */
    method RouteTo(fromFd: int, target: Conn?, m: Message, wr1: bool, wr2: bool)
      returns (rc: int, note: Option<string>, error: Option<AuxError>, ghost t: seq<AuxEvent>)
      requires Valid() && (target != null ==> m.dev.Some? && target.devId == ToI32(m.dev.value))
      modifies this`outbox, gate
      ensures Valid() && gate.trace == old(gate.trace) + t && gate.enabled == old(gate.enabled)
      ensures outbox == old(outbox) +
                Routed(fromFd, FdOf(target), m, VerdictOn(TargetPeer(target), m, note, error), wr1, wr2)
      ensures LineUse(Action(TargetPeer(target), m), m, gate.enabled, old(gate.sessionReady), old(gate.connected),
                      old(gate.Found()), note, error, t, degrees, gate.replies, gate.opens)
    {
      rc, note, error, t := -1, None, None, [];
      var a := Action(TargetPeer(target), m);
      match a {
        case RouteToSim =>
          rc, error, t := Forward(fromFd, target.fd, m, wr1, wr2);
        case RespondCached =>
          note, t := ReadNote(m);
          rc := Reply(fromFd, target, m, note, wr1);
        case _ =>
          rc := Reply(fromFd, target, m, None, wr1);
      }
    }

    method ReadNote(m: Message) returns (note: Option<string>, ghost t: seq<AuxEvent>)
      requires gate.Valid() && m.dev.Some?
      modifies gate
      ensures gate.Valid() && gate.trace == old(gate.trace) + t && gate.enabled == old(gate.enabled)
      ensures StatusReads(gate.enabled, old(gate.sessionReady), old(gate.connected), old(gate.Found()), m, note, t, degrees,
                          gate.replies, gate.opens)
    {
      var s;
      s, t := gate.ReadSnapshot(ToI32(m.dev.value), degrees);
      note := NoteOf(s);
    }

    method Reply(fromFd: int, target: Conn?, m: Message, note: Option<string>, wr: bool) returns (rc: int)
      requires Action(TargetPeer(target), m) != RouteToSim
      modifies this`outbox
      ensures outbox == old(outbox) + Routed(fromFd, FdOf(target), m, VerdictOn(TargetPeer(target), m, note, None), wr, true)
    {
      var reply := LocalReply(Action(TargetPeer(target), m), m, CachedOf(TargetPeer(target)), note);
      assert VerdictOn(TargetPeer(target), m, note, None) == ToAsker(reply);
      rc := Send(fromFd, reply, wr);
    }

    /** A request from equipmentd goes by the most recently added simulator of its device, and nowhere else.
        With the aux device enabled a heater command for device 1 is forwarded exactly when the serial line
        confirmed it, any other command exactly when the session is ready, and a status of device 1 is decorated with
        what the serial line reports. */
    method RouteRequest(fromFd: int, m: Message, wr1: bool, wr2: bool)
      returns (rc: int, note: Option<string>, error: Option<AuxError>, ghost t: seq<AuxEvent>)
      requires Valid()
      modifies this`outbox, gate
      ensures Valid() && gate.trace == old(gate.trace) + t && gate.enabled == old(gate.enabled)
      ensures var target := old(Target(m));
              && outbox == old(outbox) +
                   Routed(fromFd, FdOf(target), m, VerdictOn(TargetPeer(target), m, note, error), wr1, wr2)
              && LineUse(Action(TargetPeer(target), m), m, gate.enabled, old(gate.sessionReady), old(gate.connected),
                         old(gate.Found()), note, error, t, degrees, gate.replies, gate.opens)
    {
      var sim: Conn? := null;
      if m.dev.Some? {
        sim := list.FindSim(ToI32(m.dev.value));
      }
      rc, note, error, t := RouteTo(fromFd, sim, m, wr1, wr2);
    }

    method CacheReport(from: Conn, m: Message)
      modifies from`state, from`hasState
      ensures CachedState(from) == Cache(old(CachedState(from)), m)
    {
      if m.typ == Status && m.state.Some? {
        from.state := Take(m.state.value, STATE_MAX);
        from.hasState := true;
      }
    }

    /** A message from a simulator: its reported state is cached, the message goes on to equipmentd. */
    method RouteReport(from: Conn, m: Message, wr: bool) returns (rc: int)
      requires Valid()
      modifies this`outbox, from`state, from`hasState
      ensures Valid() && list.nodes == old(list.nodes)
      ensures CachedState(from) == Cache(old(CachedState(from)), m)
      ensures outbox == old(outbox) + old(Passed(m, wr))
    {
      ghost var k0 := list.EqdIndex();
      CacheReport(from, m);
      var eqd;
      ghost var k;
      eqd, k := list.FindEqd();
      assert k0 < |list.nodes| ==> NewestEqd(list.nodes, k0) && list.nodes[k0] in list.nodes;
      if eqd == null {
        return -1;
      }
      assert k == k0;
      rc := Send(eqd.fd, m, wr);
    }

    /** A passed-on report: it goes to the most recently added link to equipmentd, if there is one. */
    ghost function Passed(m: Message, wr: bool): (sent: seq<Packet>)
      reads this, list, list.nodes
      ensures var k := list.EqdIndex();
              sent == if k < |list.nodes| && wr && |Render(m)| + 1 <= OUTBUF then [Packet(list.nodes[k].fd, Render(m))] else []
    {
      if list.EqdIndex() < |list.nodes| then Sent(list.nodes[list.EqdIndex()].fd, m, wr) else []
    }

    /** One message of a connected peer: REGISTER first, everything else by the kind of the peer. The entry
        of the peer, what is written, and what the serial line sees. */
    method HandlePeer(c: Conn, m: Message, wr1: bool, wr2: bool)
      returns (rc: int, note: Option<string>, error: Option<AuxError>, ghost t: seq<AuxEvent>)
      requires Valid() && c in list.nodes
      modifies this`outbox, gate, c`peer, c`registered, c`devId, c`state, c`hasState
      ensures Valid() && list.nodes == old(list.nodes)
      ensures PeerOf(c) == PeerAfter(old(PeerOf(c)), m)
      ensures gate.trace == old(gate.trace) + t && gate.enabled == old(gate.enabled)
      ensures Reports(old(PeerOf(c)), m) ==> outbox == old(outbox) + old(Passed(m, wr1)) && t == []
      ensures Asks(old(PeerOf(c)), m) ==>
                var target := old(Target(m));
                && outbox == old(outbox) +
                     Routed(c.fd, FdOf(target), m, VerdictOn(TargetPeer(target), m, note, error), wr1, wr2)
                && LineUse(Action(TargetPeer(target), m), m, gate.enabled, old(gate.sessionReady), old(gate.connected),
                           old(gate.Found()), note, error, t, degrees, gate.replies, gate.opens)
      ensures !Reports(old(PeerOf(c)), m) && !Asks(old(PeerOf(c)), m) ==> outbox == old(outbox) && t == []
    {
      rc, note, error, t := -1, None, None, [];
      if !c.registered {
        rc := HandleRegister(c, m);
      } else if m.typ == Register {
        rc := 0;
      } else if c.peer == PeerEqd {
        rc, note, error, t := RouteRequest(c.fd, m, wr1, wr2);
      } else if c.peer == PeerSim {
        rc := RouteReport(c, m, wr1);
      }
    }
  }
}
