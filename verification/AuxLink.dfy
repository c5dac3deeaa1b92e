/** The serial heater device behind the PMC: retry, reconnect, what must be confirmed before a command passes, and
    what a status request reads. */
module AuxLink {
  import opened Wrappers
  import opened Messages
  import opened Text

  datatype AuxCmd = AuxPing | HeaterOn | HeaterOff | ReadHeater | ReadTemp

  /** What happens on the serial line, oldest first. */
  datatype AuxEvent =
    | Exchange(cmd: AuxCmd, reply: Option<string>) // a command and the reply read back, if any
    | Opened(ok: bool)
    | Closed

  predicate ReplyIs(e: AuxEvent, cmd: AuxCmd, prefix: string) {
    e.Exchange? && e.cmd == cmd && e.reply.Some? && prefix <= e.reply.value
  }

  /** The trace confirms what the command needs: PING then HEATER ON for START, HEATER OFF to take it down. */
  predicate Confirms(t: seq<AuxEvent>, typ: MsgType) {
    var n := |t|;
    if typ == Start then
      n > 1 && ReplyIs(t[n - 1], HeaterOn, "OK HEATER ON") && exists i | 0 <= i < n - 1 :: ReplyIs(t[i], AuxPing, "OK PONG")
    else
      n > 0 && ReplyIs(t[n - 1], HeaterOff, "OK HEATER OFF")
  }

  predicate NeedsHeater(typ: MsgType) {
    typ == Start || typ == Stop || typ == Reset || typ == Fault
  }

  function Reopening(connected: bool, ok: bool): seq<AuxEvent> {
    (if connected then [Closed] else []) + [Opened(ok)]
  }

  /** A lost attempt, a reopening and, if that succeeds, exactly one attempt more. */
  predicate Again(t: seq<AuxEvent>, cmd: AuxCmd, reply: Option<string>, connected: bool) {
    || t == [Exchange(cmd, None)] + Reopening(connected, true) + [Exchange(cmd, reply)]
    || (reply == None && t == [Exchange(cmd, None)] + Reopening(connected, false))
  }

  /** A retried operation: one attempt that is answered, or a second one after a reopening. */
  predicate Retried(t: seq<AuxEvent>, cmd: AuxCmd, reply: Option<string>) {
    (reply.Some? && t == [Exchange(cmd, reply)]) || Again(t, cmd, reply, true) || Again(t, cmd, reply, false)
  }

  /** What the device answers to the n-th line written, and whether the n-th open succeeds. */
  type Replies = nat -> Option<string>
  type Opens = nat -> bool

  /** The serial line: whether it is open, how many lines were written, how often it was opened. */
  datatype SerialLine = SerialLine(connected: bool, asked: nat, openings: nat)

  /** The reply to one line written, if the line is open. */
  function Heard(l: SerialLine, replies: Replies): Option<string> {
    if l.connected then replies(l.asked) else None
  }

  function Written(l: SerialLine): SerialLine {
    if l.connected then l.(asked := l.asked + 1) else l
  }

  /** The line after a lost attempt: it is opened anew. */
  function Renewed(l: SerialLine, opens: Opens): SerialLine {
    l.(connected := opens(l.openings), openings := l.openings + 1)
  }

  /** The reply to a command that is tried again once, on a line opened anew, if the first attempt is lost. */
  function Final(l: SerialLine, replies: Replies, opens: Opens): Option<string> {
    var first := Heard(l, replies);
    if first.Some? then first else Heard(Renewed(Written(l), opens), replies)
  }

  function LineAfter(l: SerialLine, replies: Replies, opens: Opens): SerialLine {
    if Heard(l, replies).Some? then Written(l) else Written(Renewed(Written(l), opens))
  }

  /** The reason a command is refused. */
  datatype AuxError =
    | SessionNotReady | PingFailed | PingBadReply | HeaterOnFailed | HeaterOnBadReply | HeaterOffFailed | HeaterOffBadReply

  /** The refusals that end the session: the device did not answer. */
  predicate Lost(error: Option<AuxError>) {
    error in {Some(SessionNotReady), Some(PingFailed), Some(HeaterOnFailed), Some(HeaterOffFailed)}
  }

  function ErrorText(e: AuxError): string {
    match e
    case SessionNotReady => "AUX_SESSION_NOT_READY"
    case PingFailed => "AUX_PING_FAILED"
    case PingBadReply => "AUX_PING_BAD_REPLY"
    case HeaterOnFailed => "AUX_HEATER_ON_FAILED"
    case HeaterOnBadReply => "AUX_HEATER_ON_BAD_REPLY"
    case HeaterOffFailed => "AUX_HEATER_OFF_FAILED"
    case HeaterOffBadReply => "AUX_HEATER_OFF_BAD_REPLY"
  }

  /** What the device reports: the heater, and the temperature as printed with two decimals. */
  datatype Snapshot = Snapshot(heater: Option<bool>, temp: Option<string>)

  const NO_SNAPSHOT := Snapshot(None, None)

  /** What is made of a reply to READ TEMP: sscanf reads a number behind TEMP, printf prints it with two decimals. */
  type TempReader = string -> Option<string>

  function HeaterIn(reply: Option<string>): Option<bool> {
    if reply == Some("HEATER ON") then Some(true) else if reply == Some("HEATER OFF") then Some(false) else None
  }

  function TempIn(reply: Option<string>, degrees: TempReader): Option<string> {
    match reply case None => None case Some(r) => degrees(r)
  }

  /** The text that decorates a cached status. */
  function NoteOf(s: Snapshot): Option<string> {
    match s
    case Snapshot(None, None) => None
    case Snapshot(Some(on), None) => Some(if on then "aux_ON" else "aux_OFF")
    case Snapshot(None, Some(temp)) => Some(Take("aux_temp_" + temp + "C", MSG_MAX))
    case Snapshot(Some(on), Some(temp)) => Some(Take((if on then "aux_ON_" else "aux_OFF_") + temp + "C", MSG_MAX))
  }

  /** What a status request finds out on the line l, from what the device answers. */
  function Reported(l: SerialLine, replies: Replies, opens: Opens, degrees: TempReader): Snapshot {
    if !l.connected then NO_SNAPSHOT
    else Snapshot(HeaterIn(Final(l, replies, opens)), TempIn(Final(LineAfter(l, replies, opens), replies, opens), degrees))
  }

  /** The texts, word by word: the heater's state if one of its two answers came, the temperature if a number came. */
  lemma NoteSays(degrees: TempReader, temp: string, x: string)
    requires degrees(temp) == Some(x) && |x| <= 100
    ensures forall h: string | h != "HEATER ON" && h != "HEATER OFF" :: HeaterIn(Some(h)) == None
    ensures var on, off := HeaterIn(Some("HEATER ON")), HeaterIn(Some("HEATER OFF"));
            var t := TempIn(Some(temp), degrees);
            && NoteOf(Snapshot(on, t)) == Some("aux_ON_" + x + "C") && NoteOf(Snapshot(off, t)) == Some("aux_OFF_" + x + "C")
            && NoteOf(Snapshot(on, None)) == Some("aux_ON") && NoteOf(Snapshot(off, None)) == Some("aux_OFF")
            && NoteOf(Snapshot(HeaterIn(None), t)) == Some("aux_temp_" + x + "C") && NoteOf(NO_SNAPSHOT) == None
  {
  }

  /** The heater and then the temperature are asked for, each retried once, and each counts if its own reply says so. */
  ghost predicate Readings(t: seq<AuxEvent>, s: Snapshot, degrees: TempReader) {
    exists u, v, heater, temp ::
      && Retried(u, ReadHeater, heater) && Retried(v, ReadTemp, temp) && t == u + v
      && s == Snapshot(HeaterIn(heater), TempIn(temp, degrees))
  }

  /** The line is reopened first if there is no session; if that fails nothing is read. */
  ghost predicate ReadBy(t: seq<AuxEvent>, ready: bool, connected: bool, s: Snapshot, degrees: TempReader) {
    if ready then Readings(t, s, degrees)
    else
      || (t == Reopening(connected, false) && s == NO_SNAPSHOT)
      || (Reopening(connected, true) <= t && Readings(t[|Reopening(connected, true)|..], s, degrees))
  }

  /** Why a heater command is refused, if it is, from what the device answers on the line the command finds. */
  function CommandError(typ: MsgType, l: SerialLine, replies: Replies, opens: Opens): Option<AuxError> {
    var first := Final(l, replies, opens);
    if typ == Start then
      var second := Final(LineAfter(l, replies, opens), replies, opens);
      if first.None? then Some(PingFailed)
      else if !Says(first, "OK PONG") then Some(PingBadReply)
      else if second.None? then Some(HeaterOnFailed)
      else if !Says(second, "OK HEATER ON") then Some(HeaterOnBadReply)
      else None
    else if first.None? then Some(HeaterOffFailed)
    else if !Says(first, "OK HEATER OFF") then Some(HeaterOffBadReply)
    else None
  }

  /** The text of each refusal, from what the device answers: no PONG, no HEATER ON after it, no HEATER OFF; FAILED when
      nothing came, BAD_REPLY when something else did. */
  lemma RefusalText(typ: MsgType, l: SerialLine, replies: Replies, opens: Opens)
    ensures var first := Final(l, replies, opens);
            var second := Final(LineAfter(l, replies, opens), replies, opens);
            var error := CommandError(typ, l, replies, opens);
            var text := if error.Some? then ErrorText(error.value) else "";
            if typ != Start then
              text == (if first == None then "AUX_HEATER_OFF_FAILED"
                       else if "OK HEATER OFF" <= first.value then "" else "AUX_HEATER_OFF_BAD_REPLY")
            else if first == None then text == "AUX_PING_FAILED"
            else if !("OK PONG" <= first.value) then text == "AUX_PING_BAD_REPLY"
            else
              text == (if second == None then "AUX_HEATER_ON_FAILED"
                       else if "OK HEATER ON" <= second.value then "" else "AUX_HEATER_ON_BAD_REPLY")
    ensures ErrorText(SessionNotReady) == "AUX_SESSION_NOT_READY"
  {
  }

  /** With a device that answers as it should every heater command passes, even if one line or reply gets lost on the way:
      after a reopening the same command is written again. `lost` is the attempt that is not answered; without a loss it
      is none of the command's. */
  lemma OneLossIsMended(typ: MsgType, l: SerialLine, replies: Replies, opens: Opens, lost: nat)
    requires NeedsHeater(typ) && l.connected && opens(l.openings)
    requires lost in {l.asked, l.asked + 1} ==> replies(lost) == None
    requires var n := if lost == l.asked then 1 else 0;
             if typ == Start then
               && replies(l.asked + n) == Some("OK PONG")
               && replies(l.asked + 1 + (if lost <= l.asked + 1 && lost >= l.asked then 1 else 0)) == Some("OK HEATER ON")
             else replies(l.asked + n) == Some("OK HEATER OFF")
    ensures CommandError(typ, l, replies, opens) == None
  {
  }

  /** The reply, if there is one, begins with the expected words. */
  predicate Says(reply: Option<string>, words: string) {
    reply.Some? && words <= reply.value
  }

  class AuxGate {
    var enabled: bool
    var connected: bool
    var sessionReady: bool
    const replies: Replies
    const opens: Opens
    var asked: nat
    var openings: nat
    ghost var trace: seq<AuxEvent>

    ghost predicate Valid()
      reads this
    {
      sessionReady ==> connected
    }

    ghost function View(): SerialLine
      reads this
    {
      SerialLine(connected, asked, openings)
    }

    /** pmc_io_uart_aux_clear: no device. */
    constructor (replies: Replies, opens: Opens)
      ensures Valid() && !enabled && trace == [] && this.replies == replies && this.opens == opens
      ensures View() == SerialLine(false, 0, 0)
    {
      enabled, connected, sessionReady := false, false, false;
      this.replies, this.opens := replies, opens;
      asked, openings, trace := 0, 0, [];
    }

    /** pmc_io_uart_aux_configure with a non-empty path: enabled even when the first open fails. */
    method Configure() returns (ok: bool)
      requires Valid()
      modifies this
      ensures Valid() && enabled && sessionReady == connected == ok == opens(old(openings))
      ensures openings == old(openings) + 1 && asked == old(asked)
      ensures trace == old(trace) + Reopening(old(connected), ok)
    {
      if connected {
        trace := trace + [Closed];
      }
      enabled := true;
      ok := Open();
      sessionReady := ok;
    }

    /** pico_device_open. */
    method Open() returns (ok: bool)
      modifies this`connected, this`openings, this`trace
      ensures connected == ok == opens(old(openings)) && openings == old(openings) + 1
      ensures trace == old(trace) + [Opened(ok)]
    {
      ok := opens(openings);
      openings := openings + 1;
      connected := ok;
      trace := trace + [Opened(ok)];
    }

    /** pico_send_and_wait: nothing is written while the line is closed. */
    method SendAndWait(cmd: AuxCmd) returns (r: Option<string>)
      modifies this`asked, this`trace
      ensures trace == old(trace) + [Exchange(cmd, r)]
      ensures r == (if connected then replies(old(asked)) else None)
      ensures asked == old(asked) + (if connected then 1 else 0)
    {
      r := None;
      if connected {
        r := replies(asked);
        asked := asked + 1;
      }
      trace := trace + [Exchange(cmd, r)];
    }

    method Reconnect() returns (ok: bool)
      requires enabled
      modifies this`connected, this`sessionReady, this`openings, this`trace
      ensures sessionReady == connected == ok == opens(old(openings)) && openings == old(openings) + 1
      ensures trace == old(trace) + Reopening(old(connected), ok)
    {
      if connected {
        trace := trace + [Closed];
      }
      connected, sessionReady := false, false;
      ok := Open();
      if !ok {
        return;
      }
      sessionReady := true;
    }

    /** The *_with_retry functions, from what the device does: the first attempt, if it is answered; else the line is
        opened anew and, if that succeeds, the command is written once more. A second loss ends the session. */
    method WithRetry(cmd: AuxCmd) returns (r: Option<string>, ghost t: seq<AuxEvent>)
      requires Valid() && enabled
      modifies this`connected, this`sessionReady, this`asked, this`openings, this`trace
      ensures Valid() && trace == old(trace) + t
      ensures var first := if old(connected) then replies(old(asked)) else None;
              var next := old(asked) + (if old(connected) then 1 else 0);
              if first.Some? then
                r == first && t == [Exchange(cmd, first)] && sessionReady == old(sessionReady)
                && asked == old(asked) + 1 && openings == old(openings) && connected
              else
                var ok := opens(old(openings));
                && openings == old(openings) + 1 && connected == ok && sessionReady == r.Some?
                && (if ok then r == replies(next) && asked == next + 1 else r == None && asked == next)
                && t == [Exchange(cmd, None)] + Reopening(old(connected), ok) + (if ok then [Exchange(cmd, r)] else [])
      ensures r == Final(old(View()), replies, opens) && View() == LineAfter(old(View()), replies, opens)
      ensures Retried(t, cmd, r)
    {
      r := SendAndWait(cmd);
      t := [Exchange(cmd, r)];
      if r.Some? {
        return;
      }
      ghost var again := Reopening(connected, opens(openings));
      var ok := Reconnect();
      t := t + again;
      if !ok {
        assert t == [Exchange(cmd, None)] + again + [];
        return;
      }
      r := SendAndWait(cmd);
      t := t + [Exchange(cmd, r)];
      if r.None? {
        sessionReady := false;
      }
    }

    method ReadBoth(degrees: TempReader) returns (s: Snapshot, ghost t: seq<AuxEvent>)
      requires Valid() && enabled
      modifies this`connected, this`sessionReady, this`asked, this`openings, this`trace
      ensures Valid() && trace == old(trace) + t && Readings(t, s, degrees)
      ensures var l := LineAfter(old(View()), replies, opens);
              && s == Snapshot(HeaterIn(Final(old(View()), replies, opens)), TempIn(Final(l, replies, opens), degrees))
              && View() == LineAfter(l, replies, opens)
      ensures s.heater.Some? && s.temp.Some? && old(sessionReady) ==> sessionReady
      ensures asked <= old(asked) + 4 && openings <= old(openings) + 2
    {
      var heater, u := WithRetry(ReadHeater);
      var temp, v := WithRetry(ReadTemp);
      s, t := Snapshot(HeaterIn(heater), TempIn(temp, degrees)), u + v;
    }

    /** Reconnect where the caller has no session. */
    method Renew() returns (ok: bool, ghost t: seq<AuxEvent>)
      requires Valid() && enabled
      modifies this`connected, this`sessionReady, this`openings, this`trace
      ensures Valid() && trace == old(trace) + t && ok == sessionReady
      ensures if old(sessionReady) then ok && t == [] && View() == old(View())
              else ok == opens(old(openings)) && t == Reopening(old(connected), ok) && View() == Renewed(old(View()), opens)
    {
      ok, t := true, [];
      if !sessionReady {
        ghost var close := connected;
        ok := Reconnect();
        t := Reopening(close, ok);
      }
    }

    /** The line as a request finds it: opened anew if there is no session. */
    ghost function Found(): SerialLine
      reads this
    {
      if sessionReady then View() else Renewed(View(), opens)
    }

    /** pmc_io_read_aux_snapshot: with a session, or a new one, heater and temperature are what the device answers. A
        reading that fails ends the session. */
    method ReadSnapshot(dev: int, degrees: TempReader) returns (s: Snapshot, ghost t: seq<AuxEvent>)
      requires Valid()
      modifies this`connected, this`sessionReady, this`asked, this`openings, this`trace
      ensures Valid() && trace == old(trace) + t
      ensures !enabled || dev != 1 ==> t == [] && s == NO_SNAPSHOT && View() == old(View()) && sessionReady == old(sessionReady)
      ensures enabled && dev == 1 ==> ReadBy(t, old(sessionReady), old(connected), s, degrees)
      ensures enabled && dev == 1 ==>
                var l := old(Found());
                && (l.connected ==> s.heater == HeaterIn(Final(l, replies, opens)))
                && (l.connected ==> s.temp == TempIn(Final(LineAfter(l, replies, opens), replies, opens), degrees))
                && s == Reported(l, replies, opens, degrees)
      ensures s.heater.Some? && s.temp.Some? ==> sessionReady
      ensures asked <= old(asked) + 4 && openings <= old(openings) + 3
    {
      s, t := NO_SNAPSHOT, [];
      if dev != 1 || !enabled {
        return;
      }
      ghost var ready, close := sessionReady, connected;
      var up;
      up, t := Renew();
      if up {
        ghost var w;
        s, w := ReadBoth(degrees);
        ReadAfter(ready, close, w, s, degrees);
        TraceGrows(old(trace), t, w);
        t := t + w;
      }
    }

    /** pmc_io_apply_aux_for_command: None when the command may be forwarded, else the reason. */
    method ApplyForCommand(dev: int, typ: MsgType) returns (error: Option<AuxError>, ghost t: seq<AuxEvent>)
      requires Valid()
      modifies this`connected, this`sessionReady, this`asked, this`openings, this`trace
      ensures Valid() && trace == old(trace) + t
      ensures !enabled ==> error.None? && t == []
      ensures enabled && !old(Found()).connected ==> error == Some(SessionNotReady) && t == Reopening(old(connected), false)
      ensures enabled && old(Found()).connected && dev == 1 && NeedsHeater(typ) ==>
                error == CommandError(typ, old(Found()), replies, opens)
      ensures enabled && dev == 1 && NeedsHeater(typ) ==> (error.None? <==> Confirms(t, typ))
      ensures enabled && !(dev == 1 && NeedsHeater(typ)) ==>
                && (error.None? <==> sessionReady) && (error.None? <==> old(Found()).connected)
                && t == if old(sessionReady) then [] else Reopening(old(connected), sessionReady)
      ensures (enabled && error.None? ==> sessionReady) && (Lost(error) ==> !sessionReady)
      ensures asked <= old(asked) + 4 && openings <= old(openings) + 3
    {
      t, error := [], None;
      if !enabled {
        return;
      }
      var up;
      up, t := Renew();
      if !up {
        return Some(SessionNotReady), t;
      }
      if dev != 1 {
        return;
      }
      ghost var u;
      error, u := ApplyToHeater(typ);
      if NeedsHeater(typ) {
        ConfirmsAfter(t, u, typ);
      }
      TraceGrows(old(trace), t, u);
      t := t + u;
    }

    /** The switch over the command type. */
    method ApplyToHeater(typ: MsgType) returns (error: Option<AuxError>, ghost t: seq<AuxEvent>)
      requires Valid() && enabled
      modifies this`connected, this`sessionReady, this`asked, this`openings, this`trace
      ensures Valid() && trace == old(trace) + t
      ensures NeedsHeater(typ) ==>
                t != [] && (error.None? <==> Confirms(t, typ)) && error == CommandError(typ, old(View()), replies, opens)
      ensures !NeedsHeater(typ) ==> error.None? && t == [] && sessionReady == old(sessionReady)
      ensures (error.None? && old(sessionReady) ==> sessionReady) && (Lost(error) ==> !sessionReady)
      ensures asked <= old(asked) + 4 && openings <= old(openings) + 2
    {
      match typ {
        case Start =>
          error, t := StartHeater();
        case Stop | Reset | Fault =>
          error, t := StopHeater(typ);
        case _ =>
          error, t := None, [];
      }
    }

    /** WithRetry, and how its trace ends. */
    method Ask(cmd: AuxCmd) returns (r: Option<string>, ghost t: seq<AuxEvent>)
      requires Valid() && enabled
      modifies this`connected, this`sessionReady, this`asked, this`openings, this`trace
      ensures Valid() && trace == old(trace) + t && EndsIn(t, cmd, r)
      ensures r == Final(old(View()), replies, opens) && View() == LineAfter(old(View()), replies, opens)
      ensures (r.Some? && old(sessionReady) ==> sessionReady) && (r.None? ==> !sessionReady)
      ensures asked <= old(asked) + 2 && openings <= old(openings) + 1
    {
      r, t := WithRetry(cmd);
      LastEvent(t, cmd, r);
    }

    /** The START branch: PING, then HEATER ON, each confirmed. */
    method StartHeater() returns (error: Option<AuxError>, ghost t: seq<AuxEvent>)
      requires Valid() && enabled
      modifies this`connected, this`sessionReady, this`asked, this`openings, this`trace
      ensures Valid() && trace == old(trace) + t && t != []
      ensures error.None? <==> Confirms(t, Start)
      ensures error == CommandError(Start, old(View()), replies, opens)
      ensures (error.None? && old(sessionReady) ==> sessionReady) && (Lost(error) ==> !sessionReady)
      ensures asked <= old(asked) + 4 && openings <= old(openings) + 2
    {
      error := None;
      var r, u := Ask(AuxPing);
      t := u;
      PingsConfirmNothing(u, r);
      if r.None? {
        return Some(PingFailed), t;
      }
      if !("OK PONG" <= r.value) {
        return Some(PingBadReply), t;
      }
      ghost var v, pong := [], r;
      r, v := Ask(HeaterOn);
      StartConfirmed(u, pong, v, r);
      TraceGrows(old(trace), u, v);
      t := u + v;
      if r.None? {
        return Some(HeaterOnFailed), t;
      }
      if !("OK HEATER ON" <= r.value) {
        return Some(HeaterOnBadReply), t;
      }
    }

    method StopHeater(typ: MsgType) returns (error: Option<AuxError>, ghost t: seq<AuxEvent>)
      requires Valid() && enabled && typ != Start
      modifies this`connected, this`sessionReady, this`asked, this`openings, this`trace
      ensures Valid() && trace == old(trace) + t && t != []
      ensures error.None? <==> Confirms(t, typ)
      ensures error == CommandError(typ, old(View()), replies, opens)
      ensures (error.None? && old(sessionReady) ==> sessionReady) && (Lost(error) ==> !sessionReady)
      ensures asked <= old(asked) + 2 && openings <= old(openings) + 1
    {
      error := None;
      var r, u := Ask(HeaterOff);
      t := u;
      if r.None? {
        return Some(HeaterOffFailed), t;
      }
      if !("OK HEATER OFF" <= r.value) {
        return Some(HeaterOffBadReply), t;
      }
    }
  }

  /** The trace of one command ends in its reply, or in a failure. */
  predicate EndsIn(t: seq<AuxEvent>, cmd: AuxCmd, r: Option<string>) {
    && t != [] && (forall i | 0 <= i < |t| :: t[i].Exchange? ==> t[i].cmd == cmd)
    && (r.Some? ==> t[|t| - 1] == Exchange(cmd, r))
    && (r.None? && t[|t| - 1].Exchange? ==> t[|t| - 1].reply == None)
  }

  lemma PingsConfirmNothing(u: seq<AuxEvent>, r: Option<string>)
    requires EndsIn(u, AuxPing, r)
    ensures !Confirms(u, Start)
  {
    assert !ReplyIs(u[|u| - 1], HeaterOn, "OK HEATER ON");
  }

  lemma StartConfirmed(u: seq<AuxEvent>, pong: Option<string>, v: seq<AuxEvent>, r: Option<string>)
    requires EndsIn(u, AuxPing, pong) && Says(pong, "OK PONG") && EndsIn(v, HeaterOn, r)
    ensures Confirms(u + v, Start) <==> Says(r, "OK HEATER ON")
  {
    var t := u + v;
    assert ReplyIs(t[|u| - 1], AuxPing, "OK PONG") && t[|t| - 1] == v[|v| - 1];
  }

  /** Reopening the line beforehand confirms nothing. */
  lemma ConfirmsAfter(pre: seq<AuxEvent>, t: seq<AuxEvent>, typ: MsgType)
    requires t != [] && forall i | 0 <= i < |pre| :: !pre[i].Exchange?
    ensures Confirms(pre + t, typ) <==> Confirms(t, typ)
  {
    var u := pre + t;
    assert u[|u| - 1] == t[|t| - 1];
    assert forall i | 0 <= i < |t| :: u[|pre| + i] == t[i];
    assert forall i | 0 <= i < |u| && u[i].Exchange? :: i >= |pre| && u[i] == t[i - |pre|];
  }

  lemma TraceGrows(a: seq<AuxEvent>, b: seq<AuxEvent>, c: seq<AuxEvent>)
    ensures (a + b) + c == a + (b + c)
  {
  }

  lemma ReadAfter(ready: bool, connected: bool, w: seq<AuxEvent>, s: Snapshot, degrees: TempReader)
    requires Readings(w, s, degrees)
    ensures ReadBy((if ready then [] else Reopening(connected, true)) + w, ready, connected, s, degrees)
  {
    var pre := Reopening(connected, true);
    assert [] + w == w && (pre + w)[|pre|..] == w && pre <= pre + w;
  }

  /** A retried operation ends in its own reply, or in a failure. */
  lemma LastEvent(t: seq<AuxEvent>, cmd: AuxCmd, r: Option<string>)
    requires Retried(t, cmd, r)
    ensures EndsIn(t, cmd, r)
  {
  }

  /** A retried operation makes at most two attempts and opens the line at most once. */
  lemma RetryBounds(t: seq<AuxEvent>, cmd: AuxCmd, r: Option<string>)
    requires Retried(t, cmd, r)
    ensures |t| <= 4
    ensures forall i, j, k | 0 <= i < j < k < |t| :: !(t[i].Exchange? && t[j].Exchange? && t[k].Exchange?)
    ensures forall i, j | 0 <= i < j < |t| :: !(t[i].Opened? && t[j].Opened?)
  {
  }
}
