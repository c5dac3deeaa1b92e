/** equipmentd's routing of requests and events. */
module Router {
  import opened Wrappers
  import opened Ints
  import opened Messages
  import opened Registry

  const PARSE_ERROR := Blank(Resp, Error).(ok := Some(0), code := Some(400), msg := Some("PARSE_ERROR"))

  /** What router_handle's return value says: 0, 1 with a reply, 2. */
  datatype Routed = Nothing | Reply(out: Message) | Forward

  /** The controller that owns a device; negative when it has none or is not connected. */
  function TargetFd(pmcFd: int, tmcFd: int, dev: u32): int {
    if dev == 100 then tmcFd else if dev == 1 || dev == 2 then pmcFd else -1
  }

  predicate IsDeviceCommand(t: MsgType) {
    t == Status || t == Reset || t == Fault || t == Start || t == Stop
  }

  function Route(req: Message, pmcFd: int, tmcFd: int): Routed {
    if req.role != Req then Nothing
    else if req.seqNo.None? then Reply(ErrorReply(req, 400, "MISSING_SEQ"))
    else if req.typ == Ping then Reply(OkReply(req))
    else if !IsDeviceCommand(req.typ) then Reply(ErrorReply(req, 404, "UNKNOWN_TYPE"))
    else if req.dev.None? then Reply(ErrorReply(req, 400, "MISSING_DEV"))
    else if TargetFd(pmcFd, tmcFd, req.dev.value) >= 0 then Forward
    else if req.dev.value == 100 then Reply(ErrorReply(req, 503, "TMC_NOT_CONNECTED"))
    else if req.dev.value in {1, 2} then Reply(ErrorReply(req, 503, "PMC_NOT_CONNECTED"))
    else Reply(ErrorReply(req, 404, "UNKNOWN_DEV"))
  }

  /** resolve_controller_fd: 0 or the negative reason. */
  method ResolveController(req: Message, pmcFd: int, tmcFd: int) returns (rc: int)
    ensures req.dev.None? ==> rc == -1
    ensures req.dev.Some? ==> (rc == 0 <==> TargetFd(pmcFd, tmcFd, req.dev.value) >= 0)
    ensures req.dev.Some? && rc != 0 ==>
              rc == (if req.dev.value == 100 then -2 else if req.dev.value in {1, 2} then -3 else -4)
  {
    if req.dev.None? {
      return -1;
    }
    var dev := req.dev.value;
    if dev == 100 {
      return if tmcFd < 0 then -2 else 0;
    }
    if dev == 1 || dev == 2 {
      return if pmcFd < 0 then -3 else 0;
    }
    return -4;
  }

  method HandleReq(req: Message, pmcFd: int, tmcFd: int) returns (r: Routed)
    requires req.role == Req
    ensures r == Route(req, pmcFd, tmcFd)
  {
    if req.seqNo.None? {
      return Reply(ErrorReply(req, 400, "MISSING_SEQ"));
    }
    match req.typ {
      case Ping =>
        return Reply(OkReply(req));
      case Status | Reset | Fault | Start | Stop =>
        if req.dev.None? {
          return Reply(ErrorReply(req, 400, "MISSING_DEV"));
        }
        var rc := ResolveController(req, pmcFd, tmcFd);
        if rc == -2 {
          return Reply(ErrorReply(req, 503, "TMC_NOT_CONNECTED"));
        }
        if rc == -3 {
          return Reply(ErrorReply(req, 503, "PMC_NOT_CONNECTED"));
        }
        if rc != 0 {
          return Reply(ErrorReply(req, 404, "UNKNOWN_DEV"));
        }
        return Forward;
      case _ =>
        return Reply(ErrorReply(req, 404, "UNKNOWN_TYPE"));
    }
  }

  /** router_handle: requests are answered or forwarded, events go to the registry, responses are ignored. */
  method RouterHandle(reg: ModuleRegistry, m: Message, pmcFd: int, tmcFd: int, now: int) returns (r: Routed)
    modifies reg
    ensures r == Route(m, pmcFd, tmcFd)
    ensures reg.View() == if m.role == Evt then EventEffect(old(reg.View()), m, now) else old(reg.View())
  {
    match m.role {
      case Req =>
        r := HandleReq(m, pmcFd, tmcFd);
      case Evt =>
        reg.HandleEvent(m, now);
        r := Nothing;
      case _ =>
        r := Nothing;
    }
  }
}
