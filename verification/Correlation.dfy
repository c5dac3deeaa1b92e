/** From a client's request to its response: every node answers under the request's own key. */
module Correlation {
  import opened Wrappers
  import opened Ints
  import opened Text
  import opened Messages
  import opened Codec
  import opened Tracker
  import opened Daemon
  import opened DaemonRuns
  import WireTrip
  import Router
  import P = Pmc
  import S = Sim
  import F = Fsm
  import T = Tmc

  /** Whoever answers a request, and however, echoes its sequence number and device. */
  lemma EveryResponderEchoes(req: Message)
    ensures forall code: i32, text :: Echoes(req, ErrorReply(req, code, text))
    ensures forall a: P.SeqAction, cached, note :: a != P.RouteToSim ==> Echoes(req, P.LocalReply(a, req, cached, note))
    ensures forall dev: u32, ok :: req.dev == Some(dev) ==> Echoes(req, S.Reply(dev, req, ok))
  {
  }

  /** The transfer module's responses, among everything it sends when it handles a request. */
  lemma TransferModuleEchoes(t: T.Tmc, req: Message, now: int, sentAt: int, wr1: bool, wr2: bool, m: Message)
    requires m in T.Handled(t, req, now, sentAt, wr1, wr2).sent && m.role == Resp
    ensures Echoes(req, m)
    ensures T.Handled(t, req, now, sentAt, wr1, wr2).sent[0] == m
  {
  }

  /** A simulator answers a batch of requests one by one, in order. */
  lemma {:induction false} SimulatorAnswersInOrder(devId: u32, f: F.Fsm, reqs: seq<Message>)
    requires forall m | m in reqs :: m.role == Req && m.dev == Some(devId)
    ensures var outs := S.Batch(devId, f, reqs).outs;
            |outs| == |reqs| && forall i | 0 <= i < |reqs| :: Echoes(reqs[i], outs[i])
  {
    if reqs != [] {
      var n := |reqs| - 1;
      assert reqs[n] in reqs;
      SimulatorAnswersInOrder(devId, f, reqs[..n]);
    }
  }

  // ----- responses survive the wire

  predicate Plain(s: string) {
    BlankFree(s) && NulFree(s) && EolFree(s)
  }

  predicate PlainTexts(m: Message) {
    (m.state.Some? ==> Plain(m.state.value)) && (m.msg.Some? ==> Plain(m.msg.value))
  }

  lemma PlainIsWirable(m: Message)
    requires Storable(m) && Known(m) && FloatFree(m) && PlainTexts(m)
    ensures WireTrip.Wirable(m)
  {
    FloatFreeSize(m);
  }

  // ----- through the daemon and back

  /** A response under the key of a live entry that is the first with its key goes to that entry's client, unchanged, and frees the entry. */
  lemma ResponseReachesClient(st: State, i: nat, ctl: int, resp: Message, now: int)
    requires i < |st.slots| && st.slots[i].Some?
    requires FirstMatch(st.slots, st.slots[i].value.seqNo, st.slots[i].value.dev) == i
    requires IsController(st, ctl)
    requires WireTrip.Wirable(resp) && resp.role == Resp
    requires var p := st.slots[i].value;
             p.clientFd >= 0 && resp.seqNo == Some(p.seqNo) && resp.dev == Some(p.dev)
    ensures var o := Step(st, LineIn(ctl, Render(resp), now, true));
            && o.sent == [Packet(st.slots[i].value.clientFd, Render(resp))]
            && o.st.slots == st.slots[i := None]
            && o.ledger.relayed == multiset{st.slots[i].value}
  {
    WireTrip.WirableReturns(resp);
    assert AnsweredSlot(st, ctl, resp) == i;
    assert HandleMessage(st, ctl, Some(resp), now, true) == Answer(st, i, resp, true);
  }

  /** Attaching redirects exactly the requests of the controller's devices. */
  lemma AttachedTargets(st: State, fd: int, reg: Message, dev: u32)
    requires IsAttach(reg)
    ensures var a := Attached(st, fd, reg);
            Router.TargetFd(a.pmcFd, a.tmcFd, dev) ==
              if dev in (if reg.dev == Some(100) then {100} else {1, 2}) then fd
              else Router.TargetFd(st.pmcFd, st.tmcFd, dev)
  {
  }

  lemma AttachOutcome(st: State, fd: int, reg: Message, now: int)
    requires IsAttach(reg)
    ensures HandleMessage(st, fd, Some(reg), now, true)
         == Outcome(Attached(st, fd, reg), 1, [Packet(fd, Render(OkReply(reg)))], NO_ENTRIES)
  {
    FloatFreeSize(OkReply(reg));
  }

  /** A controller's REGISTER is acknowledged to it under its own key, and from then on it is where the
      requests for its devices go. */
  lemma RegisterAttaches(st: State, fd: int, reg: Message, now: int, dev: u32)
    requires WireTrip.Wirable(reg) && reg.role == Req && reg.typ == Register && reg.dev in {None, Some(100)}
    ensures var o := Step(st, LineIn(fd, Render(reg), now, true));
            && o.sent == [Packet(fd, Render(OkReply(reg)))] && IsConsent(OkReply(reg), reg)
            && Router.TargetFd(o.st.pmcFd, o.st.tmcFd, dev) ==
                 if dev in (if reg.dev == Some(100) then {100} else {1, 2}) then fd
                 else Router.TargetFd(st.pmcFd, st.tmcFd, dev)
  {
    WirableFits(reg);
    AttachOutcome(st, fd, reg, now);
    AttachedTargets(st, fd, reg, dev);
  }

  lemma ForwardOutcome(st: State, client: int, req: Message, now: int)
    requires FirstFree(st.slots) < |st.slots|
    requires |Render(req)| + 1 <= WBUF && Router.Route(req, st.pmcFd, st.tmcFd) == Router.Forward
    ensures req.role == Req && req.seqNo.Some? && req.dev.Some?
    ensures var o := HandleMessage(st, client, Some(req), now, true);
            && o.ret == 0
            && o.sent == [Packet(Router.TargetFd(st.pmcFd, st.tmcFd, req.dev.value), Render(req))]
            && o.st == st.(slots := st.slots[FirstFree(st.slots) := Some(ClientPending(client, req, now))])
  {
    assert HandleMessage(st, client, Some(req), now, true) == Routing(st, client, req, now, true);
  }

  /** A client's request under a fresh key goes to the device's controller and waits in the first free slot. */
  lemma RequestReachesController(st: State, client: int, req: Message, now: int)
    requires FirstFree(st.slots) < |st.slots|
    requires WireTrip.Wirable(req) && Router.Route(req, st.pmcFd, st.tmcFd) == Router.Forward
    ensures req.role == Req && req.seqNo.Some? && req.dev.Some?
    ensures var o := Step(st, LineIn(client, Render(req), now, true));
            && o.sent == [Packet(Router.TargetFd(st.pmcFd, st.tmcFd, req.dev.value), Render(req))]
            && o.st == st.(slots := st.slots[FirstFree(st.slots) := Some(ClientPending(client, req, now))])
  {
    WirableFits(req);
    ForwardOutcome(st, client, req, now);
  }

  lemma WirableFits(m: Message)
    requires WireTrip.Wirable(m)
    ensures Parse(Render(m)) == Some(m) && |Render(m)| + 1 <= WBUF
  {
    WireTrip.WirableReturns(m);
  }

  /** No live entry waits under the request's sequence number and device. */
  predicate Fresh(slots: seq<Slot>, req: Message) {
    forall s | s in slots :: s.Some? ==> !(req.seqNo == Some(s.value.seqNo) && req.dev == Some(s.value.dev))
  }

  lemma FreshKeyKeepsUnique(slots: seq<Slot>, k: nat, client: int, req: Message, now: int)
    requires UniqueKeys(slots) && Fresh(slots, req) && k < |slots|
    requires req.seqNo.Some? && req.dev.Some?
    ensures UniqueKeys(slots[k := Some(ClientPending(client, req, now))])
  {
    assert forall j | 0 <= j < |slots| :: slots[j] in slots;
  }

  /** The whole way: the request reaches its controller; whatever happens in between, as long as it does not
      answer the request, outlast its 10 s or reuse a live key, a response that echoes the request then goes
      to the client that asked and to no one else, and frees exactly its slot. */
  lemma RequestIsAnswered(st: State, client: int, req: Message, sentAt: int, es: seq<Input>,
                          ctl: int, resp: Message, now: int)
    requires FirstFree(st.slots) < |st.slots| && UniqueKeys(st.slots) && Fresh(st.slots, req)
    requires client >= 0
    requires WireTrip.Wirable(req) && Router.Route(req, st.pmcFd, st.tmcFd) == Router.Forward
    requires WireTrip.Wirable(resp) && Echoes(req, resp)
    ensures req.seqNo.Some? && req.dev.Some?
    ensures var k := FirstFree(st.slots);
            var o1 := Step(st, LineIn(client, Render(req), sentAt, true));
            var st2 := StateAfter(o1.st, es);
            var o2 := Step(st2, LineIn(ctl, Render(resp), now, true));
            && o1.sent == [Packet(Router.TargetFd(st.pmcFd, st.tmcFd, req.dev.value), Render(req))]
            && (CalmRun(o1.st, es, ClientPending(client, req, sentAt)) && IsController(st2, ctl) ==>
                  o2.sent == [Packet(client, Render(resp))] && k < |st2.slots| && o2.st.slots == st2.slots[k := None])
  {
    RequestReachesController(st, client, req, sentAt);
    var k := FirstFree(st.slots);
    var p := ClientPending(client, req, sentAt);
    var o1 := Step(st, LineIn(client, Render(req), sentAt, true));
    FreshKeyKeepsUnique(st.slots, k, client, req, sentAt);
    AnsweredLater(o1.st, es, k, ctl, resp, now);
  }

  /** A live entry, any calm run, then its response. */
  lemma AnsweredLater(st: State, es: seq<Input>, k: nat, ctl: int, resp: Message, now: int)
    requires k < |st.slots| && st.slots[k].Some? && UniqueKeys(st.slots)
    requires WireTrip.Wirable(resp) && resp.role == Resp
    requires var p := st.slots[k].value;
             p.clientFd >= 0 && resp.seqNo == Some(p.seqNo) && resp.dev == Some(p.dev)
    ensures var st2 := StateAfter(st, es);
            var o := Step(st2, LineIn(ctl, Render(resp), now, true));
            CalmRun(st, es, st.slots[k].value) && IsController(st2, ctl) ==>
              && o.sent == [Packet(st.slots[k].value.clientFd, Render(resp))]
              && k < |st2.slots| && o.st.slots == st2.slots[k := None]
  {
    if CalmRun(st, es, st.slots[k].value) && IsController(StateAfter(st, es), ctl) {
      EntryStays(st, es, k);
      FindIsExact(StateAfter(st, es).slots, k);
      ResponseReachesClient(StateAfter(st, es), k, ctl, resp, now);
    }
  }
}
