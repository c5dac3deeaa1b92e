/** What equipmentd knows about its three modules. */
module Registry {
  import opened Wrappers
  import opened Ints
  import opened Messages

  const MODULE_STALE_MS := 3000

  datatype ModuleInfo = ModuleInfo(
    registered: bool, busy: bool,
    hasState: bool, currentState: string,
    lastUpdateMs: int, lastStatusMs: int, lastTelemetryMs: int, lastStateChangeMs: int,
    healthy: bool, faultLatched: bool)

  const UNSEEN := ModuleInfo(false, false, false, "", 0, 0, 0, 0, false, false)

  datatype Modules = Modules(tmc: ModuleInfo, preclean: ModuleInfo, deposition: ModuleInfo)

  predicate Shows(m: ModuleInfo, state: string) {
    m.hasState && m.currentState == state
  }

  /** module_registry_touch_status: it never stores the state it is given. */
  function TouchedStatus(m: ModuleInfo, now: int, newState: string): ModuleInfo {
    var changed := m.hasState ==> m.currentState != newState;
    m.(lastStateChangeMs := if changed then now else m.lastStateChangeMs,
       lastUpdateMs := now, lastStatusMs := now, healthy := true)
  }

  function TouchedTelemetry(m: ModuleInfo, now: int): ModuleInfo {
    m.(lastUpdateMs := now, lastTelemetryMs := now, healthy := true)
  }

  function IsStale(m: ModuleInfo, now: int, staleMs: int): bool {
    !m.registered || m.lastUpdateMs <= 0 || now - m.lastUpdateMs > staleMs
  }

  function Refreshed(m: ModuleInfo, now: int): ModuleInfo {
    m.(healthy := !IsStale(m, now, MODULE_STALE_MS))
  }

  /** Apply f to the module with this device id, if there is one. */
  function Update(ms: Modules, dev: u32, f: ModuleInfo -> ModuleInfo): Modules {
    if dev == 100 then ms.(tmc := f(ms.tmc))
    else if dev == 1 then ms.(preclean := f(ms.preclean))
    else if dev == 2 then ms.(deposition := f(ms.deposition))
    else ms
  }

  predicate IsBusyState(s: string) {
    s == "PROCESSING" || s == "READY" || s == "TRANSFERRING"
  }

  /** The effect of an EVT STATUS with the given state. */
  function StatusEffect(m: ModuleInfo, now: int, state: Option<string>): ModuleInfo {
    var m1 := m.(registered := true);
    match state
    case None => m1
    case Some(s) =>
      TouchedStatus(m1.(busy := IsBusyState(s), faultLatched := m.faultLatched || s == "FAULT"), now, s)
  }

  /** The effect of any event on the registry. */
  function EventEffect(ms: Modules, m: Message, now: int): Modules {
    if m.dev.None? then ms
    else
      match m.typ
      case Register => Update(ms, m.dev.value, (x: ModuleInfo) => x.(registered := true))
      case Status => Update(ms, m.dev.value, (x: ModuleInfo) => StatusEffect(x, now, m.state))
      case Telemetry =>
        if m.dev.value == 100 then ms
        else Update(ms, m.dev.value, (x: ModuleInfo) => TouchedTelemetry(x.(registered := true), now))
      case _ => ms
  }

  function ClearedFault(ms: Modules, dev: u32): Modules {
    Update(ms, dev, (x: ModuleInfo) => x.(faultLatched := false))
  }

  function RefreshedAll(ms: Modules, now: int): Modules {
    Modules(Refreshed(ms.tmc, now), Refreshed(ms.preclean, now), Refreshed(ms.deposition, now))
  }

  predicate Stateless(ms: Modules) {
    !ms.tmc.hasState && !ms.preclean.hasState && !ms.deposition.hasState
  }

  /** No event, acknowledgement or refresh ever records a module's state. */
  lemma StaysStateless(ms: Modules, m: Message, dev: u32, now: int)
    requires Stateless(ms)
    ensures Stateless(EventEffect(ms, m, now))
    ensures Stateless(ClearedFault(ms, dev))
    ensures Stateless(RefreshedAll(ms, now))
  {
  }

  class ModuleRegistry {
    var tmc: ModuleInfo
    var preclean: ModuleInfo
    var deposition: ModuleInfo

    constructor ()
      ensures View() == Modules(UNSEEN, UNSEEN, UNSEEN)
    {
      tmc, preclean, deposition := UNSEEN, UNSEEN, UNSEEN;
    }

    ghost function View(): Modules
      reads this
    {
      Modules(tmc, preclean, deposition)
    }

    /** handle_evt of the router. */
    method HandleEvent(m: Message, now: int)
      modifies this
      ensures View() == EventEffect(old(View()), m, now)
    {
      if m.dev.None? {
        return;
      }
      var dev := m.dev.value;
      match m.typ {
        case Register =>
          if dev == 100 {
            tmc := tmc.(registered := true);
          } else if dev == 1 {
            preclean := preclean.(registered := true);
          } else if dev == 2 {
            deposition := deposition.(registered := true);
          }
        case Status =>
          if dev == 100 {
            tmc := StatusEffect(tmc, now, m.state);
          } else if dev == 1 {
            preclean := StatusEffect(preclean, now, m.state);
          } else if dev == 2 {
            deposition := StatusEffect(deposition, now, m.state);
          }
        case Telemetry =>
          if dev == 1 {
            preclean := TouchedTelemetry(preclean.(registered := true), now);
          } else if dev == 2 {
            deposition := TouchedTelemetry(deposition.(registered := true), now);
          }
        case _ =>
      }
    }

    /** The latch reset of an acknowledged RESET. */
    method ClearFault(dev: u32)
      modifies this
      ensures View() == ClearedFault(old(View()), dev)
    {
      if dev == 1 {
        preclean := preclean.(faultLatched := false);
      } else if dev == 2 {
        deposition := deposition.(faultLatched := false);
      } else if dev == 100 {
        tmc := tmc.(faultLatched := false);
      }
    }

    /** refresh_module_health. */
    method RefreshHealth(now: int)
      modifies this
      ensures View() == RefreshedAll(old(View()), now)
    {
      preclean := Refreshed(preclean, now);
      deposition := Refreshed(deposition, now);
      tmc := Refreshed(tmc, now);
    }
  }
}
