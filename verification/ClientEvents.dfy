/** From bytes to steps: the read loop of a client event drives the daemon line by line. */
module ClientEvents {
  import opened Wrappers
  import opened Messages
  import opened Codec
  import opened Stream
  import opened Sessions
  import opened Daemon
  import opened DaemonRuns
  import opened ConnTable
  import WireTrip

  /** What handling the k-th line of a read does to the daemon. */
  type Handler = (State, string, nat) -> Outcome

  /** The handler of connection fd; the oracles give the clock and the outcome of the write
      for each line. */
  function LineHandler(fd: int, now: nat -> int, wr: nat -> bool): Handler {
    (st: State, line: string, k: nat) => Step(st, LineIn(fd, line, now(k), wr(k)))
  }

  ghost predicate IsHandler(f: Handler, fd: int, now: nat -> int, wr: nat -> bool) {
    forall st: State, line: string, k: nat {:trigger Step(st, LineIn(fd, line, now(k), wr(k)))} ::
      f(st, line, k) == Step(st, LineIn(fd, line, now(k), wr(k)))
  }

  /** The new state, what was written, how many lines were handled, whether the last one failed. */
  datatype Handled = Handled(st: State, sent: seq<Packet>, count: nat, failed: bool)

  /** Lines handled in order, up to and including the first one whose handling fails. */
  function HandleLines(f: Handler, st: State, ls: seq<string>, k: nat): Handled
    decreases |ls|
  {
    if ls == [] then Handled(st, [], 0, false)
    else
      var o := f(st, ls[0], k);
      if o.ret < 0 then Handled(o.st, o.sent, 1, true)
      else After(HandleLines(f, o.st, ls[1..], k + 1), o.sent, 1)
  }

  /** The outcome when n lines were handled before, writing `sent`. */
  function After(h: Handled, sent: seq<Packet>, n: nat): Handled {
    Handled(h.st, sent + h.sent, n + h.count, h.failed)
  }

  function Inputs(fd: int, ls: seq<string>, now: nat -> int, wr: nat -> bool, k: nat): seq<Input> {
    seq(|ls|, i requires 0 <= i < |ls| => LineIn(fd, ls[i], now(k + i), wr(k + i)))
  }

  lemma RunCons(st: State, fd: int, ls: seq<string>, now: nat -> int, wr: nat -> bool, k: nat)
    requires ls != []
    ensures StateAfter(st, Inputs(fd, ls, now, wr, k))
         == StateAfter(Step(st, LineIn(fd, ls[0], now(k), wr(k))).st, Inputs(fd, ls[1..], now, wr, k + 1))
  {
    var es := Inputs(fd, ls, now, wr, k);
    assert es[0] == LineIn(fd, ls[0], now(k), wr(k));
    assert es[1..] == Inputs(fd, ls[1..], now, wr, k + 1);
  }

  /** A read is a run of the daemon over the lines it handled, so whatever holds of every run holds of raw
      bytes. All lines are handled unless one fails, and that one is the last. */
  lemma {:induction false} ReadIsRun(f: Handler, st: State, fd: int, ls: seq<string>, now: nat -> int, wr: nat -> bool, k: nat)
    requires IsHandler(f, fd, now, wr)
    ensures var h := HandleLines(f, st, ls, k);
            && h.count <= |ls|
            && h.st == StateAfter(st, Inputs(fd, ls[..h.count], now, wr, k))
            && (if h.failed then h.count > 0 else h.count == |ls|)
    decreases |ls|
  {
    if ls != [] {
      var o := f(st, ls[0], k);
      RunStep(f, st, fd, ls, now, wr, k);
      if o.ret >= 0 {
        ReadIsRun(f, o.st, fd, ls[1..], now, wr, k + 1);
      }
    }
  }

  lemma RunStep(f: Handler, st: State, fd: int, ls: seq<string>, now: nat -> int, wr: nat -> bool, k: nat)
    requires IsHandler(f, fd, now, wr) && ls != []
    ensures var o := f(st, ls[0], k);
            && StateAfter(st, Inputs(fd, ls[..1], now, wr, k)) == o.st
            && forall n: nat | n < |ls| ::
                 StateAfter(st, Inputs(fd, ls[..n + 1], now, wr, k)) == StateAfter(o.st, Inputs(fd, ls[1..][..n], now, wr, k + 1))
  {
    assert f(st, ls[0], k) == Step(st, LineIn(fd, ls[0], now(k), wr(k)));
    RunCons(st, fd, ls[..1], now, wr, k);
    forall n: nat | n < |ls|
      ensures StateAfter(st, Inputs(fd, ls[..n + 1], now, wr, k))
           == StateAfter(f(st, ls[0], k).st, Inputs(fd, ls[1..][..n], now, wr, k + 1))
    {
      RunCons(st, fd, ls[..n + 1], now, wr, k);
      assert ls[..n + 1][1..] == ls[1..][..n];
    }
  }

  lemma Assoc(a: seq<Packet>, b: seq<Packet>, c: seq<Packet>)
    ensures (a + b) + c == a + (b + c)
  {
  }

  lemma AfterAfter(h: Handled, a: seq<Packet>, m: nat, b: seq<Packet>, n: nat)
    ensures After(After(h, b, n), a, m) == After(h, a + b, m + n)
  {
    assert a + (b + h.sent) == (a + b) + h.sent;
  }

  /** One more line popped and handled: where the read stands. */
  lemma DrainStep(f: Handler, b: string, cap: nat, st: State, k: nat, sent: seq<Packet>)
    requires PopFrom(b, cap).Line?
    ensures var p := PopFrom(b, cap);
            var o := f(st, p.text, k);
            && Drain(b, cap).rest == Drain(p.rest, cap).rest
            && After(HandleLines(f, st, Drain(b, cap).lines, k), sent, k) ==
                 if o.ret < 0 then Handled(o.st, sent + o.sent, k + 1, true)
                 else After(HandleLines(f, o.st, Drain(p.rest, cap).lines, k + 1), sent + o.sent, k + 1)
  {
    var p := PopFrom(b, cap);
    DrainUnfold(b, cap);
    var ls := Drain(b, cap).lines;
    assert ls[0] == p.text && ls[1..] == Drain(p.rest, cap).lines;
    var o := f(st, p.text, k);
    AfterAfter(HandleLines(f, o.st, ls[1..], k + 1), sent, k, o.sent, 1);
  }

  lemma NoneLeft(f: Handler, st: State, k: nat, sent: seq<Packet>)
    ensures After(HandleLines(f, st, [], k), sent, k) == Handled(st, sent, k, false)
  {
  }

  lemma AfterNothing(h: Handled)
    ensures After(h, [], 0) == h
  {
  }

  /** handle_one_line, and the close that follows a failure. */
  method HandleLine(app: App, fd: int, line: string, now: int, wr: bool, wbuf: array<char>) returns (ok: bool)
    requires app.Valid() && wbuf.Length == WBUF
    modifies app, app.tracker.items, app.registry, wbuf
    ensures app.Valid()
    ensures var o := Step(old(app.View()), LineIn(fd, line, now, wr));
            app.View() == o.st && app.outbox == old(app.outbox) + o.sent && ok == (o.ret >= 0)
  {
    var ret := app.HandleOneLine(fd, line, now, wbuf, wr);
    if ret < 0 {
      app.Detach(fd);
    }
    ok := ret >= 0;
  }

  lemma SameParse(st: State, fd: int, a: string, b: string, now: int, wr: bool)
    requires Parse(a) == Parse(b)
    ensures Step(st, LineIn(fd, a, now, wr)) == Step(st, LineIn(fd, b, now, wr))
  {
  }

  /** Pop one line and handle it; its text is a C string in the line buffer. */
  method PopAndHandle(app: App, s: Session, ghost f: Handler, fd: int, now: nat -> int, wr: nat -> bool, k: nat,
                      line: array<char>, wbuf: array<char>)
    returns (got: bool, ok: bool, ghost o: Outcome)
    requires app.Valid() && s.Valid() && line != s.buf && wbuf != s.buf && wbuf != line && wbuf.Length == WBUF
    requires IsHandler(f, fd, now, wr)
    modifies app, app.tracker.items, app.registry, s`len, s.buf, line, wbuf
    ensures app.Valid() && s.Valid()
    ensures var p := PopFrom(old(s.Bytes()), line.Length);
            && got == p.Line?
            && (!got ==> s.Bytes() == old(s.Bytes()) && app.View() == old(app.View()) && o.sent == [])
            && app.outbox == old(app.outbox) + o.sent
            && (got ==>
                  && o == f(old(app.View()), p.text, k)
                  && s.Bytes() == p.rest && s.len < old(s.len)
                  && app.View() == o.st && ok == (o.ret >= 0))
  {
    ghost var p, st := PopFrom(s.Bytes(), line.Length), app.View();
    var rc := s.PopLine(line);
    got, ok, o := rc == 1, true, Quiet(st, 0);
    if got {
      WireTrip.LineInBuffer(p.text, line[..]);
      SameParse(st, fd, line[..], p.text, now(k), wr(k));
      ok := HandleLine(app, fd, line[..], now(k), wr(k), wbuf);
      o := Step(st, LineIn(fd, p.text, now(k), wr(k)));
    }
  }

  /** After k lines, which wrote `sent`, the rest of the read is what the buffer b still holds. */
  predicate Stands(f: Handler, cap: nat, d: Cut, h: Handled, st: State, b: string, sent: seq<Packet>, k: nat) {
    && d.rest == Drain(b, cap).rest
    && h == After(HandleLines(f, st, Drain(b, cap).lines, k), sent, k)
  }

  lemma StandsNext(f: Handler, cap: nat, d: Cut, h: Handled, st: State, b: string, sent: seq<Packet>, k: nat, o: Outcome)
    requires Stands(f, cap, d, h, st, b, sent, k)
    requires PopFrom(b, cap).Line? && o == f(st, PopFrom(b, cap).text, k)
    ensures o.ret >= 0 ==> Stands(f, cap, d, h, o.st, PopFrom(b, cap).rest, sent + o.sent, k + 1)
    ensures o.ret < 0 ==> h == Handled(o.st, sent + o.sent, k + 1, true)
  {
    DrainStep(f, b, cap, st, k, sent);
  }

  lemma StandsAtEnd(f: Handler, cap: nat, d: Cut, h: Handled, st: State, b: string, sent: seq<Packet>, k: nat)
    requires Stands(f, cap, d, h, st, b, sent, k) && !PopFrom(b, cap).Line?
    ensures h == Handled(st, sent, k, false) && b == d.rest
  {
    DrainUnfold(b, cap);
    NoneLeft(f, st, k, sent);
  }

  /** One turn of the drain loop. */
  method Turn(app: App, s: Session, ghost f: Handler, fd: int, now: nat -> int, wr: nat -> bool, line: array<char>, wbuf: array<char>,
              ghost out0: seq<Packet>, ghost d: Cut, ghost h: Handled, ghost sent: seq<Packet>, k: nat)
    returns (got: bool, ok: bool, ghost sent': seq<Packet>)
    requires app.Valid() && s.Valid() && line != s.buf && wbuf != s.buf && wbuf != line && wbuf.Length == WBUF
    requires IsHandler(f, fd, now, wr)
    requires app.outbox == out0 + sent && Stands(f, line.Length, d, h, app.View(), s.Bytes(), sent, k)
    modifies app, app.tracker.items, app.registry, s`len, s.buf, line, wbuf
    ensures app.Valid() && s.Valid() && app.outbox == out0 + sent'
    ensures got && ok ==> Stands(f, line.Length, d, h, app.View(), s.Bytes(), sent', k + 1) && s.len < old(s.len)
    ensures !(got && ok) ==> app.View() == h.st && sent' == h.sent && h.failed == got
    ensures !got ==> s.Bytes() == d.rest
  {
    ghost var b, st := s.Bytes(), app.View();
    ghost var o;
    got, ok, o := PopAndHandle(app, s, f, fd, now, wr, k, line, wbuf);
    sent' := sent + o.sent;
    Assoc(out0, sent, o.sent);
    if got {
      StandsNext(f, line.Length, d, h, st, b, sent, k, o);
    } else {
      StandsAtEnd(f, line.Length, d, h, st, b, sent, k);
    }
  }

  method DrainLines(app: App, s: Session, ghost f: Handler, fd: int, now: nat -> int, wr: nat -> bool,
                    line: array<char>, wbuf: array<char>)
    returns (open: bool)
    requires app.Valid() && s.Valid() && line != s.buf && wbuf != s.buf && wbuf != line && wbuf.Length == WBUF
    requires IsHandler(f, fd, now, wr)
    modifies app, app.tracker.items, app.registry, s`len, s.buf, line, wbuf
    ensures app.Valid() && s.Valid()
    ensures var d := Drain(old(s.Bytes()), line.Length);
            var h := HandleLines(f, old(app.View()), d.lines, 0);
            && app.View() == h.st && app.outbox == old(app.outbox) + h.sent && open == !h.failed
            && (open ==> s.Bytes() == d.rest)
  {
    ghost var d := Drain(s.Bytes(), line.Length);
    ghost var h := HandleLines(f, app.View(), d.lines, 0);
    ghost var out0 := app.outbox;
    ghost var sent: seq<Packet> := [];
    var k := 0;
    AfterNothing(h);
    while true
      invariant app.Valid() && s.Valid()
      invariant app.outbox == out0 + sent
      invariant Stands(f, line.Length, d, h, app.View(), s.Bytes(), sent, k)
      decreases s.len
    {
      var got, ok;
      got, ok, sent := Turn(app, s, f, fd, now, wr, line, wbuf, out0, d, h, sent, k);
      if !got || !ok {
        return !got;
      }
      k := k + 1;
    }
  }

  /** One read of handle_client_event: every complete line is handled, in order, until one fails and the
      connection is closed; a read that overflows the buffer closes it without handling anything. */
  method HandleRead(app: App, s: Session, fd: int, chunk: string, now: nat -> int, wr: nat -> bool, line: array<char>, wbuf: array<char>)
    returns (open: bool)
    requires app.Valid() && s.Valid() && line != s.buf && wbuf != s.buf && wbuf != line && wbuf.Length == WBUF
    modifies app, app.tracker.items, app.registry, s`len, s.buf, line, wbuf
    ensures app.Valid() && s.Valid()
    ensures |old(s.Bytes())| + |chunk| > CAPACITY ==> !open && app.View() == old(app.View()) && app.outbox == old(app.outbox)
    ensures |old(s.Bytes())| + |chunk| <= CAPACITY ==>
              var d := Drain(old(s.Bytes()) + chunk, line.Length);
              var h := HandleLines(LineHandler(fd, now, wr), old(app.View()), d.lines, 0);
              && app.View() == h.st && app.outbox == old(app.outbox) + h.sent && open == !h.failed
              && (open ==> s.Bytes() == d.rest)
  {
    open := s.Feed(chunk);
    if open {
      open := DrainLines(app, s, LineHandler(fd, now, wr), fd, now, wr, line, wbuf);
    }
  }

  // ----- the reads of one event

  /** What read returns: bytes at a time, with the clock and the outcome of the write for each line in them; or the end. */
  datatype Read = Data(bytes: string, at: int, now: (nat -> int), wr: (nat -> bool)) | End

  /** The daemon after an event, what was written, whether the connection is still open, what its buffer then holds, and
      when it was last heard of, if it was. */
  datatype Event = Event(st: State, sent: seq<Packet>, open: bool, rest: string, heard: Option<int>)

  /** handle_client_event for connection fd, whose buffer holds b, up to the read that finds nothing. */
  function EventOf(fd: int, cap: nat, st: State, b: string, rs: seq<Read>): Event
    decreases |rs|
  {
    if rs == [] then Event(st, [], true, b, None)
    else
      match rs[0]
      case End => Event(Detached(st, fd), [], false, b, None)
      case Data(bytes, at, now, wr) =>
        if |b| + |bytes| > CAPACITY then Event(st, [], false, b, Some(at))
        else
          var d := Drain(b + bytes, cap);
          var h := HandleLines(LineHandler(fd, now, wr), st, d.lines, 0);
          if h.failed then Event(h.st, h.sent, false, d.rest, Some(at))
          else Following(h, at, EventOf(fd, cap, h.st, d.rest, rs[1..]))
  }

  function Following(h: Handled, at: int, r: Event): Event {
    r.(sent := h.sent + r.sent, heard := Some(if r.heard.Some? then r.heard.value else at))
  }

  // ----- what an event is, read off the bytes alone

  /** Nothing but data, and none of it too much for the buffer. */
  predicate Undisturbed(cap: nat, b: string, rs: seq<Read>)
    decreases |rs|
  {
    rs != [] ==>
      rs[0].Data? && |b| + |rs[0].bytes| <= CAPACITY && Undisturbed(cap, Drain(b + rs[0].bytes, cap).rest, rs[1..])
  }

  /** The inputs in the bytes of the reads, up to the end or an overflow; the end is an input too. */
  function ReadInputs(fd: int, cap: nat, b: string, rs: seq<Read>): seq<Input>
    decreases |rs|
  {
    if rs == [] then []
    else
      match rs[0]
      case End => [GoneIn(fd)]
      case Data(bytes, at, now, wr) =>
        if |b| + |bytes| > CAPACITY then []
        else
          var d := Drain(b + bytes, cap);
          Inputs(fd, d.lines, now, wr, 0) + ReadInputs(fd, cap, d.rest, rs[1..])
  }

  function BytesOf(rs: seq<Read>): seq<string> {
    seq(|rs|, i requires 0 <= i < |rs| => if rs[i].Data? then rs[i].bytes else "")
  }

  function LinesIn(es: seq<Input>): seq<string> {
    seq(|es|, i requires 0 <= i < |es| => if es[i].LineIn? then es[i].line else "")
  }

  lemma LinesInConcat(a: seq<Input>, b: seq<Input>)
    ensures LinesIn(a + b) == LinesIn(a) + LinesIn(b)
  {
  }

  /** Reads without end or overflow bring exactly the lines that framing finds in their bytes, in order. */
  lemma {:induction false} ReadInputsAreLines(fd: int, cap: nat, b: string, rs: seq<Read>)
    requires Undisturbed(cap, b, rs)
    ensures var s := Serve(b, BytesOf(rs), cap);
            !s.closed && LinesIn(ReadInputs(fd, cap, b, rs)) == s.lines
    ensures forall e | e in ReadInputs(fd, cap, b, rs) :: e.LineIn? && e.fd == fd
    decreases |rs|
  {
    if rs != [] {
      var d := Drain(b + rs[0].bytes, cap);
      var es := Inputs(fd, d.lines, rs[0].now, rs[0].wr, 0);
      ReadInputsAreLines(fd, cap, d.rest, rs[1..]);
      assert BytesOf(rs)[0] == rs[0].bytes && BytesOf(rs)[1..] == BytesOf(rs[1..]);
      assert LinesIn(es) == d.lines;
      LinesInConcat(es, ReadInputs(fd, cap, d.rest, rs[1..]));
    }
  }

  /** Everything a run of the daemon writes. */
  function SentOver(st: State, es: seq<Input>): seq<Packet> {
    if es == [] then []
    else SentOver(st, es[..|es| - 1]) + Step(StateAfter(st, es[..|es| - 1]), es[|es| - 1]).sent
  }

  lemma {:induction false} SentOverConcat(st: State, a: seq<Input>, b: seq<Input>)
    ensures SentOver(st, a + b) == SentOver(st, a) + SentOver(StateAfter(st, a), b)
    decreases |b|
  {
    if b == [] {
      assert a + b == a;
    } else {
      var fs, e := b[..|b| - 1], b[|b| - 1];
      assert (a + b)[..|a + b| - 1] == a + fs;
      SentOverConcat(st, a, fs);
      StateAfterConcat(st, a, fs);
      Assoc(SentOver(st, a), SentOver(StateAfter(st, a), fs), Step(StateAfter(st, a + fs), e).sent);
    }
  }

  /** es is a run of the daemon from st that ends in st' and writes `sent`. */
  predicate IsRun(st: State, es: seq<Input>, st': State, sent: seq<Packet>) {
    StateAfter(st, es) == st' && SentOver(st, es) == sent
  }

  lemma RunsJoin(st: State, a: seq<Input>, st1: State, sent: seq<Packet>, b: seq<Input>, st2: State, more: seq<Packet>)
    requires IsRun(st, a, st1, sent) && IsRun(st1, b, st2, more)
    ensures IsRun(st, a + b, st2, sent + more)
  {
    StateAfterConcat(st, a, b);
    SentOverConcat(st, a, b);
  }

  lemma RunOne(st: State, e: Input)
    ensures IsRun(st, [e], Step(st, e).st, Step(st, e).sent)
  {
    StateAfterOne(st, e);
    assert [e][..0] == [];
  }

  lemma RunNone(st: State)
    ensures IsRun(st, [], st, [])
  {
  }

  /** The inputs up to and including the first one whose handling fails. */
  function UntilFailure(st: State, es: seq<Input>): seq<Input>
    decreases |es|
  {
    if es == [] then []
    else if Step(st, es[0]).ret < 0 then [es[0]]
    else [es[0]] + UntilFailure(Step(st, es[0]).st, es[1..])
  }

  predicate NoneFails(st: State, es: seq<Input>)
    decreases |es|
  {
    es != [] ==> Step(st, es[0]).ret >= 0 && NoneFails(Step(st, es[0]).st, es[1..])
  }

  lemma {:induction false} NoneFailsConcat(st: State, a: seq<Input>, b: seq<Input>)
    ensures NoneFails(st, a + b) <==> NoneFails(st, a) && NoneFails(StateAfter(st, a), b)
    decreases |a|
  {
    if a == [] {
      assert a + b == b;
    } else {
      assert (a + b)[1..] == a[1..] + b;
      NoneFailsConcat(Step(st, a[0]).st, a[1..], b);
    }
  }

  lemma {:induction false} AllHandled(st: State, a: seq<Input>, b: seq<Input>)
    requires NoneFails(st, a)
    ensures UntilFailure(st, a + b) == a + UntilFailure(StateAfter(st, a), b)
    decreases |a|
  {
    if a == [] {
      assert a + b == b;
    } else {
      var st1 := Step(st, a[0]).st;
      assert (a + b)[1..] == a[1..] + b;
      AllHandled(st1, a[1..], b);
      Front(a, UntilFailure(StateAfter(st1, a[1..]), b));
    }
  }

  lemma Front(a: seq<Input>, b: seq<Input>)
    requires a != []
    ensures [a[0]] + (a[1..] + b) == a + b
  {
  }

  lemma {:induction false} CutShort(st: State, a: seq<Input>, b: seq<Input>)
    requires !NoneFails(st, a)
    ensures UntilFailure(st, a + b) == UntilFailure(st, a)
    decreases |a|
  {
    assert (a + b)[1..] == a[1..] + b;
    if Step(st, a[0]).ret >= 0 {
      CutShort(Step(st, a[0]).st, a[1..], b);
    }
  }

  lemma UntilConcat(st: State, a: seq<Input>, b: seq<Input>)
    ensures NoneFails(st, a) ==> UntilFailure(st, a) == a && UntilFailure(st, a + b) == a + UntilFailure(StateAfter(st, a), b)
    ensures !NoneFails(st, a) ==> UntilFailure(st, a + b) == UntilFailure(st, a)
    ensures NoneFails(st, a + b) <==> NoneFails(st, a) && NoneFails(StateAfter(st, a), b)
  {
    NoneFailsConcat(st, a, b);
    if NoneFails(st, a) {
      AllHandled(st, a, b);
      AllHandled(st, a, []);
      assert a + [] == a;
    } else {
      CutShort(st, a, b);
    }
  }

  lemma InputsCons(fd: int, ls: seq<string>, now: nat -> int, wr: nat -> bool, k: nat)
    requires ls != []
    ensures Inputs(fd, ls, now, wr, k) == [LineIn(fd, ls[0], now(k), wr(k))] + Inputs(fd, ls[1..], now, wr, k + 1)
  {
  }

  lemma UntilCons(st: State, e: Input, es: seq<Input>)
    ensures UntilFailure(st, [e] + es) ==
              if Step(st, e).ret < 0 then [e] else [e] + UntilFailure(Step(st, e).st, es)
    ensures NoneFails(st, [e] + es) <==> Step(st, e).ret >= 0 && NoneFails(Step(st, e).st, es)
  {
    assert ([e] + es)[1..] == es;
  }

  /** The lines of one read are a run, cut after the first line that fails. */
  lemma {:induction false} LinesAreRun(f: Handler, st: State, fd: int, ls: seq<string>, now: nat -> int, wr: nat -> bool, k: nat)
    requires IsHandler(f, fd, now, wr)
    ensures var h := HandleLines(f, st, ls, k);
            && IsRun(st, UntilFailure(st, Inputs(fd, ls, now, wr, k)), h.st, h.sent)
            && (h.failed <==> !NoneFails(st, Inputs(fd, ls, now, wr, k)))
    decreases |ls|
  {
    if ls == [] {
      RunNone(st);
    } else {
      var e := LineIn(fd, ls[0], now(k), wr(k));
      var o := f(st, ls[0], k);
      assert o == Step(st, e);
      InputsCons(fd, ls, now, wr, k);
      UntilCons(st, e, Inputs(fd, ls[1..], now, wr, k + 1));
      RunOne(st, e);
      if o.ret >= 0 {
        LinesAreRun(f, o.st, fd, ls[1..], now, wr, k + 1);
        var h := HandleLines(f, o.st, ls[1..], k + 1);
        RunsJoin(st, [e], o.st, o.sent, UntilFailure(o.st, Inputs(fd, ls[1..], now, wr, k + 1)), h.st, h.sent);
      }
    }
  }

  /** What an event comes to: the run over the inputs in the bytes, cut after the first that fails; the connection stays
      open exactly if nothing fails and there is neither an end nor an overflow. */
  predicate EventMeans(fd: int, cap: nat, st: State, b: string, rs: seq<Read>, ev: Event) {
    var es := ReadInputs(fd, cap, b, rs);
    && IsRun(st, UntilFailure(st, es), ev.st, ev.sent)
    && (ev.open <==> Undisturbed(cap, b, rs) && NoneFails(st, es))
  }

  lemma GoneMeans(fd: int, st: State)
    ensures UntilFailure(st, [GoneIn(fd)]) == [GoneIn(fd)] && IsRun(st, [GoneIn(fd)], Detached(st, fd), [])
  {
    RunOne(st, GoneIn(fd));
    assert [GoneIn(fd)][1..] == [];
  }

  /** An event is a run of the daemon: whatever holds of every run holds of raw bytes as they are read. */
  lemma {:induction false} EventIsRun(fd: int, cap: nat, st: State, b: string, rs: seq<Read>)
    ensures EventMeans(fd, cap, st, b, rs, EventOf(fd, cap, st, b, rs))
    decreases |rs|
  {
    if rs == [] {
      RunNone(st);
    } else {
      match rs[0]
      case End => GoneMeans(fd, st);
      case Data(bytes, at, now, wr) =>
        if |b| + |bytes| > CAPACITY {
          RunNone(st);
        } else {
          var d := Drain(b + bytes, cap);
          var h := HandleLines(LineHandler(fd, now, wr), st, d.lines, 0);
          LinesAreRun(LineHandler(fd, now, wr), st, fd, d.lines, now, wr, 0);
          if !h.failed {
            EventIsRun(fd, cap, h.st, d.rest, rs[1..]);
          }
          DataMeans(fd, cap, st, b, rs, h, EventOf(fd, cap, h.st, d.rest, rs[1..]));
        }
    }
  }

  lemma DataMeans(fd: int, cap: nat, st: State, b: string, rs: seq<Read>, h: Handled, r: Event)
    requires rs != [] && rs[0].Data? && |b| + |rs[0].bytes| <= CAPACITY
    requires var es := Inputs(fd, Drain(b + rs[0].bytes, cap).lines, rs[0].now, rs[0].wr, 0);
             IsRun(st, UntilFailure(st, es), h.st, h.sent) && (h.failed <==> !NoneFails(st, es))
    requires !h.failed ==> EventMeans(fd, cap, h.st, Drain(b + rs[0].bytes, cap).rest, rs[1..], r)
    ensures EventMeans(fd, cap, st, b, rs,
                       if h.failed then Event(h.st, h.sent, false, Drain(b + rs[0].bytes, cap).rest, Some(rs[0].at))
                       else Following(h, rs[0].at, r))
  {
    var d := Drain(b + rs[0].bytes, cap);
    var es, more := Inputs(fd, d.lines, rs[0].now, rs[0].wr, 0), ReadInputs(fd, cap, d.rest, rs[1..]);
    UntilConcat(st, es, more);
    if !h.failed {
      RunsJoin(st, es, h.st, h.sent, UntilFailure(h.st, more), r.st, r.sent);
    }
  }

  /** While it stays open, the connection is left with what framing leaves of its bytes, and was last heard of at its
      last read; without a read, as before. */
  lemma OpenEvent(fd: int, cap: nat, st: State, b: string, rs: seq<Read>)
    ensures var ev := EventOf(fd, cap, st, b, rs);
            ev.open ==>
              && ev.rest == Serve(b, BytesOf(rs), cap).rest
              && (rs == [] ==> ev.heard == None)
              && (rs != [] ==> rs[|rs| - 1].Data? && ev.heard == Some(rs[|rs| - 1].at))
  {
    OpenRest(fd, cap, st, b, rs);
    OpenHeard(fd, cap, st, b, rs);
  }

  lemma {:induction false} OpenRest(fd: int, cap: nat, st: State, b: string, rs: seq<Read>)
    ensures EventOf(fd, cap, st, b, rs).open ==> EventOf(fd, cap, st, b, rs).rest == Serve(b, BytesOf(rs), cap).rest
    decreases |rs|
  {
    if rs != [] && rs[0].Data? && |b| + |rs[0].bytes| <= CAPACITY {
      var d := Drain(b + rs[0].bytes, cap);
      var h := HandleLines(LineHandler(fd, rs[0].now, rs[0].wr), st, d.lines, 0);
      OpenRest(fd, cap, h.st, d.rest, rs[1..]);
      assert BytesOf(rs)[0] == rs[0].bytes && BytesOf(rs)[1..] == BytesOf(rs[1..]);
    }
  }

  lemma {:induction false} OpenHeard(fd: int, cap: nat, st: State, b: string, rs: seq<Read>)
    ensures var ev := EventOf(fd, cap, st, b, rs);
            ev.open ==>
              if rs == [] then ev.heard == None
              else rs[|rs| - 1].Data? && ev.heard == Some(rs[|rs| - 1].at)
    decreases |rs|
  {
    if rs != [] && rs[0].Data? && |b| + |rs[0].bytes| <= CAPACITY {
      var d := Drain(b + rs[0].bytes, cap);
      var h := HandleLines(LineHandler(fd, rs[0].now, rs[0].wr), st, d.lines, 0);
      OpenHeard(fd, cap, h.st, d.rest, rs[1..]);
      assert |rs| > 1 ==> rs[1..][|rs| - 2] == rs[|rs| - 1];
    }
  }

  /** The reads that an event performs: all of them, or up to the one that closes the connection. */
  function Performed(fd: int, cap: nat, st: State, b: string, rs: seq<Read>): (n: nat)
    ensures n <= |rs|
    decreases |rs|
  {
    if rs == [] then 0
    else
      match rs[0]
      case End => 1
      case Data(bytes, at, now, wr) =>
        if |b| + |bytes| > CAPACITY then 1
        else
          var d := Drain(b + bytes, cap);
          var es := Inputs(fd, d.lines, now, wr, 0);
          if !NoneFails(st, es) then 1 else 1 + Performed(fd, cap, StateAfter(st, es), d.rest, rs[1..])
  }

  /** The time of the last data among the reads. */
  function LastHeard(rs: seq<Read>): Option<int> {
    if rs == [] then None
    else if rs[|rs| - 1].Data? then Some(rs[|rs| - 1].at)
    else LastHeard(rs[..|rs| - 1])
  }

  lemma {:induction false} LastHeardCons(r: Read, rs: seq<Read>)
    ensures LastHeard([r] + rs) == if LastHeard(rs).Some? then LastHeard(rs) else if r.Data? then Some(r.at) else None
    decreases |rs|
  {
    var qs := [r] + rs;
    if rs == [] {
      assert qs[..|qs| - 1] == [];
    } else {
      assert qs[..|qs| - 1] == [r] + rs[..|rs| - 1];
      LastHeardCons(r, rs[..|rs| - 1]);
    }
  }

  lemma HeardCons(fd: int, cap: nat, st: State, b: string, rs: seq<Read>)
    requires rs != [] && rs[0].Data? && |b| + |rs[0].bytes| <= CAPACITY
    ensures var d := Drain(b + rs[0].bytes, cap);
            var es := Inputs(fd, d.lines, rs[0].now, rs[0].wr, 0);
            var heard := EventOf(fd, cap, st, b, rs).heard;
            if NoneFails(st, es) then
              var r := EventOf(fd, cap, StateAfter(st, es), d.rest, rs[1..]).heard;
              heard == if r.Some? then r else Some(rs[0].at)
            else heard == Some(rs[0].at)
  {
    var d := Drain(b + rs[0].bytes, cap);
    var es := Inputs(fd, d.lines, rs[0].now, rs[0].wr, 0);
    LinesAreRun(LineHandler(fd, rs[0].now, rs[0].wr), st, fd, d.lines, rs[0].now, rs[0].wr, 0);
    UntilConcat(st, es, []);
  }

  lemma TakeCons(rs: seq<Read>, n: nat)
    requires n < |rs|
    ensures rs[..1 + n] == [rs[0]] + rs[1..][..n] && rs[..1] == [rs[0]] + []
  {
  }

  /** Open or closed, the connection was last heard of at the last data it sent among the reads performed. */
  lemma {:induction false} HeardAtLast(fd: int, cap: nat, st: State, b: string, rs: seq<Read>)
    ensures EventOf(fd, cap, st, b, rs).heard == LastHeard(rs[..Performed(fd, cap, st, b, rs)])
    decreases |rs|
  {
    if rs != [] {
      TakeCons(rs, 0);
      LastHeardCons(rs[0], []);
      if rs[0].Data? && |b| + |rs[0].bytes| <= CAPACITY {
        HeardCons(fd, cap, st, b, rs);
        var d := Drain(b + rs[0].bytes, cap);
        var es := Inputs(fd, d.lines, rs[0].now, rs[0].wr, 0);
        if NoneFails(st, es) {
          var n := Performed(fd, cap, StateAfter(st, es), d.rest, rs[1..]);
          HeardAtLast(fd, cap, StateAfter(st, es), d.rest, rs[1..]);
          LastHeardCons(rs[0], rs[1..][..n]);
          TakeCons(rs, n);
        }
      }
    }
  }

  /** A connection with its framing buffer. */
  class Client {
    const conn: Connection
    const session: Session

    constructor (conn: Connection, session: Session)
      ensures this.conn == conn && this.session == session
    {
      this.conn, this.session := conn, session;
    }
  }

  /** Where an event stands after some of its reads, which wrote `sent` and were last heard of at `heard`. */
  predicate EventStands(fd: int, cap: nat, all: Event, st: State, b: string, rest: seq<Read>, sent: seq<Packet>, heard: Option<int>) {
    var r := EventOf(fd, cap, st, b, rest);
    all == r.(sent := sent + r.sent, heard := if r.heard.Some? then r.heard else heard)
  }

  lemma EventNext(fd: int, cap: nat, all: Event, st: State, b: string, rest: seq<Read>, sent: seq<Packet>, heard: Option<int>)
    requires EventStands(fd, cap, all, st, b, rest, sent, heard) && rest != [] && rest[0].Data?
    requires |b| + |rest[0].bytes| <= CAPACITY
    ensures var d := Drain(b + rest[0].bytes, cap);
            var h := HandleLines(LineHandler(fd, rest[0].now, rest[0].wr), st, d.lines, 0);
            if h.failed then all == Event(h.st, sent + h.sent, false, d.rest, Some(rest[0].at))
            else EventStands(fd, cap, all, h.st, d.rest, rest[1..], sent + h.sent, Some(rest[0].at))
  {
    var d := Drain(b + rest[0].bytes, cap);
    var h := HandleLines(LineHandler(fd, rest[0].now, rest[0].wr), st, d.lines, 0);
    Assoc(sent, h.sent, EventOf(fd, cap, h.st, d.rest, rest[1..]).sent);
  }

  function TimeOf(heard: Option<int>, before: int): int {
    if heard.Some? then heard.value else before
  }

  /** What an event leaves of its connection: when it was last heard of, and what its buffer holds while it is open. */
  ghost predicate Served(c: Client, ev: Event, before: int)
    reads c.conn, c.session, c.session.buf
  {
    && c.conn.lastActiveMs == TimeOf(ev.heard, before) && c.session.Valid()
    && (ev.open ==> c.session.Bytes() == ev.rest)
  }

  /** One read: the clock first, then its lines. */
  method HandleData(app: App, c: Client, r: Read, line: array<char>, wbuf: array<char>) returns (open: bool)
    requires app.Valid() && c.session.Valid() && wbuf.Length == WBUF && r.Data?
    requires line != c.session.buf && wbuf != c.session.buf && wbuf != line
    modifies app, app.tracker.items, app.registry, c.conn, c.session`len, c.session.buf, line, wbuf
    ensures app.Valid() && c.session.Valid() && c.conn.lastActiveMs == r.at
    ensures var b := old(c.session.Bytes());
            if |b| + |r.bytes| > CAPACITY then !open && app.View() == old(app.View()) && app.outbox == old(app.outbox)
            else
              var d := Drain(b + r.bytes, line.Length);
              var h := HandleLines(LineHandler(c.conn.fd, r.now, r.wr), old(app.View()), d.lines, 0);
              && app.View() == h.st && app.outbox == old(app.outbox) + h.sent && open == !h.failed
              && (open ==> c.session.Bytes() == d.rest)
  {
    c.conn.lastActiveMs := r.at;
    open := HandleRead(app, c.session, c.conn.fd, r.bytes, r.now, r.wr, line, wbuf);
  }

  /** handle_client_event: read until nothing is there, or the connection is closed. */
  method HandleEvent(app: App, c: Client, rs: seq<Read>, line: array<char>, wbuf: array<char>) returns (open: bool)
    requires app.Valid() && c.session.Valid() && wbuf.Length == WBUF
    requires line != c.session.buf && wbuf != c.session.buf && wbuf != line
    modifies app, app.tracker.items, app.registry, c.conn, c.session`len, c.session.buf, line, wbuf
    ensures app.Valid()
    ensures var ev := EventOf(c.conn.fd, line.Length, old(app.View()), old(c.session.Bytes()), rs);
            && app.View() == ev.st && app.outbox == old(app.outbox) + ev.sent && open == ev.open
            && Served(c, ev, old(c.conn.lastActiveMs))
    ensures var n := Performed(c.conn.fd, line.Length, old(app.View()), old(c.session.Bytes()), rs);
            c.conn.lastActiveMs == match LastHeard(rs[..n]) case None => old(c.conn.lastActiveMs) case Some(at) => at
    ensures open && rs != [] ==> rs[|rs| - 1].Data? && c.conn.lastActiveMs == rs[|rs| - 1].at
  {
    ghost var fd, cap := c.conn.fd, line.Length;
    ghost var all := EventOf(fd, cap, app.View(), c.session.Bytes(), rs);
    HeardAtLast(fd, cap, app.View(), c.session.Bytes(), rs);
    OpenEvent(fd, cap, app.View(), c.session.Bytes(), rs);
    open := ServeReads(app, c, rs, all, line, wbuf);
  }

  /** One read of the loop. */
  method ServeNext(app: App, c: Client, r: Read, ghost all: Event, ghost rest: seq<Read>, ghost out0: seq<Packet>,
                   ghost sent: seq<Packet>, ghost heard: Option<int>, line: array<char>, wbuf: array<char>)
    returns (open: bool, ghost sent': seq<Packet>)
    requires app.Valid() && c.session.Valid() && wbuf.Length == WBUF && r.Data? && rest != [] && rest[0] == r
    requires line != c.session.buf && wbuf != c.session.buf && wbuf != line
    requires app.outbox == out0 + sent
    requires EventStands(c.conn.fd, line.Length, all, app.View(), c.session.Bytes(), rest, sent, heard)
    modifies app, app.tracker.items, app.registry, c.conn, c.session`len, c.session.buf, line, wbuf
    ensures app.Valid() && c.session.Valid() && c.conn.lastActiveMs == r.at && app.outbox == out0 + sent'
    ensures open ==> EventStands(c.conn.fd, line.Length, all, app.View(), c.session.Bytes(), rest[1..], sent', Some(r.at))
    ensures !open ==> app.View() == all.st && sent' == all.sent && !all.open && all.heard == Some(r.at)
  {
    ghost var st, b := app.View(), c.session.Bytes();
    open := HandleData(app, c, r, line, wbuf);
    if |b| + |r.bytes| <= CAPACITY {
      ghost var h := HandleLines(LineHandler(c.conn.fd, r.now, r.wr), st, Drain(b + r.bytes, line.Length).lines, 0);
      EventNext(c.conn.fd, line.Length, all, st, b, rest, sent, heard);
      Assoc(out0, sent, h.sent);
      sent' := sent + h.sent;
    } else {
      sent' := sent;
      assert sent + [] == sent;
    }
  }

  method ServeReads(app: App, c: Client, rs: seq<Read>, ghost all: Event, line: array<char>, wbuf: array<char>)
    returns (open: bool)
    requires app.Valid() && c.session.Valid() && wbuf.Length == WBUF
    requires line != c.session.buf && wbuf != c.session.buf && wbuf != line
    requires all == EventOf(c.conn.fd, line.Length, app.View(), c.session.Bytes(), rs)
    modifies app, app.tracker.items, app.registry, c.conn, c.session`len, c.session.buf, line, wbuf
    ensures app.Valid() && Served(c, all, old(c.conn.lastActiveMs))
    ensures app.View() == all.st && app.outbox == old(app.outbox) + all.sent && open == all.open
  {
    ghost var fd, cap, before, out0 := c.conn.fd, line.Length, c.conn.lastActiveMs, app.outbox;
    ghost var sent: seq<Packet> := [];
    ghost var heard: Option<int> := None;
    var i := 0;
    assert rs[0..] == rs && [] + all.sent == all.sent;
    while i < |rs|
      invariant 0 <= i <= |rs| && app.Valid() && c.session.Valid() && app.outbox == out0 + sent
      invariant EventStands(fd, cap, all, app.View(), c.session.Bytes(), rs[i..], sent, heard)
      invariant c.conn.lastActiveMs == TimeOf(heard, before)
    {
      assert rs[i..][0] == rs[i] && rs[i..][1..] == rs[i + 1..];
      if rs[i].End? {
        app.Detach(c.conn.fd);
        assert sent + [] == sent;
        return false;
      }
      open, sent := ServeNext(app, c, rs[i], all, rs[i..], out0, sent, heard, line, wbuf);
      heard := Some(rs[i].at);
      if !open {
        return;
      }
      i := i + 1;
    }
    assert sent + [] == sent;
    open := true;
  }

  // ----- one turn of the event loop

  /** A connection that epoll_wait reports: its number, the bytes its buffer holds, when it was last heard of, what its
      reads will return. */
  datatype Ready = Ready(fd: int, held: string, since: int, got: seq<Read>)

  datatype Turned = Turned(st: State, sent: seq<Packet>)

  function EventAt(cap: nat, st: State, xs: seq<Ready>, i: nat): Event
    requires i < |xs|
    decreases i, 1
  {
    EventOf(xs[i].fd, cap, EventsOf(cap, st, xs, i).st, xs[i].held, xs[i].got)
  }

  /** The first n events, in order. */
  function EventsOf(cap: nat, st: State, xs: seq<Ready>, n: nat): Turned
    requires n <= |xs|
    decreases n, 0
  {
    if n == 0 then Turned(st, [])
    else
      var ev := EventAt(cap, st, xs, n - 1);
      Turned(ev.st, EventsOf(cap, st, xs, n - 1).sent + ev.sent)
  }

  /** After the events, run_scheduler, then the timeout sweep, each with its own clock. */
  function TurnEnd(t: Turned, at: Clock): Turned {
    var o := Step(t.st, SchedulerIn(at.schedAt, at.wr));
    Turned(Step(o.st, SweepIn(at.sweepAt)).st, t.sent + o.sent)
  }

  /** What a turn comes to, as values: the daemon after each event, what each one is, and the daemon in the end. */
  datatype Course = Course(turned: seq<Turned>, event: seq<Event>, end: Turned)

  /** When the scheduler and the sweep run, and whether the scheduler's write succeeds. */
  datatype Clock = Clock(schedAt: int, wr: bool, sweepAt: int)

  ghost predicate IsCourse(k: Course, cap: nat, st: State, xs: seq<Ready>, at: Clock) {
    && |k.turned| == |xs| + 1 && |k.event| == |xs|
    && (forall n: nat {:trigger EventsOf(cap, st, xs, n)} | n <= |xs| :: k.turned[n] == EventsOf(cap, st, xs, n))
    && (forall n: nat {:trigger EventAt(cap, st, xs, n)} | n < |xs| :: k.event[n] == EventAt(cap, st, xs, n))
    && (forall t: Turned {:trigger TurnEnd(t, at)} | t == k.turned[|xs|] :: k.end == TurnEnd(t, at))
  }

  lemma CourseOf(cap: nat, st: State, xs: seq<Ready>, at: Clock) returns (k: Course)
    ensures IsCourse(k, cap, st, xs, at)
  {
    k := Course(seq(|xs| + 1, n requires 0 <= n <= |xs| => EventsOf(cap, st, xs, n)),
                seq(|xs|, n requires 0 <= n < |xs| => EventAt(cap, st, xs, n)),
                TurnEnd(EventsOf(cap, st, xs, |xs|), at));
  }

  /** The next connection: what its event does is what comes next in the course. */
  lemma CourseNext(k: Course, cap: nat, st0: State, xs: seq<Ready>, at: Clock, n: nat)
    requires IsCourse(k, cap, st0, xs, at) && n < |xs|
    ensures k.event[n] == EventOf(xs[n].fd, cap, k.turned[n].st, xs[n].held, xs[n].got)
    ensures k.turned[n + 1] == Turned(k.event[n].st, k.turned[n].sent + k.event[n].sent)
  {
    assert k.turned[n] == EventsOf(cap, st0, xs, n) && k.turned[n + 1] == EventsOf(cap, st0, xs, n + 1);
    assert k.event[n] == EventAt(cap, st0, xs, n);
  }

  /** Connection n in the course. */
  predicate TakesTurn(k: Course, cap: nat, xs: seq<Ready>, n: nat)
    requires n < |xs| == |k.event| && |k.turned| == |xs| + 1
  {
    && k.event[n] == EventOf(xs[n].fd, cap, k.turned[n].st, xs[n].held, xs[n].got)
    && k.turned[n + 1] == Turned(k.event[n].st, k.turned[n].sent + k.event[n].sent)
  }

  /** All connections, one after the other. */
  ghost predicate Proceeds(k: Course, cap: nat, xs: seq<Ready>) {
    |k.turned| == |xs| + 1 && |k.event| == |xs| && forall n: nat | n < |xs| :: TakesTurn(k, cap, xs, n)
  }

  lemma CourseProceeds(k: Course, cap: nat, st0: State, xs: seq<Ready>, at: Clock)
    requires IsCourse(k, cap, st0, xs, at)
    ensures Proceeds(k, cap, xs)
  {
    forall n: nat | n < |xs|
      ensures TakesTurn(k, cap, xs, n)
    {
      CourseNext(k, cap, st0, xs, at, n);
    }
  }

  lemma CourseBegins(k: Course, cap: nat, st: State, xs: seq<Ready>, at: Clock)
    requires IsCourse(k, cap, st, xs, at)
    ensures k.turned[0] == Turned(st, [])
  {
    assert EventsOf(cap, st, xs, 0) == Turned(st, []);
  }

  lemma CourseEnds(k: Course, cap: nat, st: State, xs: seq<Ready>, at: Clock)
    requires IsCourse(k, cap, st, xs, at)
    ensures k.end == TurnEnd(k.turned[|xs|], at)
  {
  }

  /** The inputs of one connection: those in its bytes, cut after the first that fails. */
  function Cut1(cap: nat, st: State, x: Ready): seq<Input> {
    UntilFailure(st, ReadInputs(x.fd, cap, x.held, x.got))
  }

  /** The inputs of the first n connections, in order. */
  function Flat(cuts: seq<seq<Input>>, n: nat): seq<Input>
    requires n <= |cuts|
  {
    if n == 0 then [] else Flat(cuts, n - 1) + cuts[n - 1]
  }

  /** The inputs es lead from a to b. */
  ghost predicate LeadsBy(a: Turned, es: seq<Input>, b: Turned) {
    exists more :: IsRun(a.st, es, b.st, more) && b.sent == a.sent + more
  }

  lemma EventLeads(k: Course, cap: nat, st: State, xs: seq<Ready>, at: Clock, n: nat)
    requires IsCourse(k, cap, st, xs, at) && n < |xs|
    ensures LeadsBy(k.turned[n], Cut1(cap, k.turned[n].st, xs[n]), k.turned[n + 1])
    ensures k.event[n].open <==>
              && Undisturbed(cap, xs[n].held, xs[n].got)
              && NoneFails(k.turned[n].st, ReadInputs(xs[n].fd, cap, xs[n].held, xs[n].got))
  {
    CourseNext(k, cap, st, xs, at, n);
    EventIsRun(xs[n].fd, cap, k.turned[n].st, xs[n].held, xs[n].got);
    assert IsRun(k.turned[n].st, Cut1(cap, k.turned[n].st, xs[n]), k.event[n].st, k.event[n].sent);
  }

  lemma RunLeadsOn(st: State, es: seq<Input>, a: Turned, cut: seq<Input>, b: Turned)
    requires IsRun(st, es, a.st, a.sent) && LeadsBy(a, cut, b)
    ensures IsRun(st, es + cut, b.st, b.sent)
  {
    var more :| IsRun(a.st, cut, b.st, more) && b.sent == a.sent + more;
    RunsJoin(st, es, a.st, a.sent, cut, b.st, more);
  }

  ghost predicate Linked(ts: seq<Turned>, cuts: seq<seq<Input>>, i: nat)
    requires i < |cuts| && |ts| == |cuts| + 1
  {
    LeadsBy(ts[i], cuts[i], ts[i + 1])
  }

  ghost predicate AllLinked(ts: seq<Turned>, cuts: seq<seq<Input>>) {
    |ts| == |cuts| + 1 && ts[0].sent == [] && forall i: nat | i < |cuts| :: Linked(ts, cuts, i)
  }

  lemma ChainNext(ts: seq<Turned>, cuts: seq<seq<Input>>, n: nat)
    requires AllLinked(ts, cuts) && n < |cuts| && IsRun(ts[0].st, Flat(cuts, n), ts[n].st, ts[n].sent)
    ensures IsRun(ts[0].st, Flat(cuts, n + 1), ts[n + 1].st, ts[n + 1].sent)
  {
    assert Linked(ts, cuts, n);
    RunLeadsOn(ts[0].st, Flat(cuts, n), ts[n], cuts[n], ts[n + 1]);
  }

  lemma {:induction false} ChainIsRun(ts: seq<Turned>, cuts: seq<seq<Input>>, n: nat)
    requires AllLinked(ts, cuts) && n <= |cuts|
    ensures IsRun(ts[0].st, Flat(cuts, n), ts[n].st, ts[n].sent)
  {
    if n == 0 {
      RunNone(ts[0].st);
    } else {
      ChainIsRun(ts, cuts, n - 1);
      ChainNext(ts, cuts, n - 1);
    }
  }

  /** A turn of the event loop, bytes and all, is the run of the daemon over the inputs in the bytes of each connection, in
      order, each cut after its first failure in the state the ones before leave, then the scheduler's and the sweep's: it
      ends where that run ends and writes what that run writes. A connection stays open exactly if its reads bring
      neither an end nor an overflow and no line that fails. So whatever holds of every run holds of raw reads. */
  lemma TurnIsRun(k: Course, cap: nat, st: State, xs: seq<Ready>, at: Clock) returns (cuts: seq<seq<Input>>)
    requires IsCourse(k, cap, st, xs, at)
    ensures |cuts| == |xs|
    ensures forall n: nat | n < |xs| ::
              var before := StateAfter(st, Flat(cuts, n));
              && cuts[n] == UntilFailure(before, ReadInputs(xs[n].fd, cap, xs[n].held, xs[n].got))
              && (k.event[n].open <==>
                    && Undisturbed(cap, xs[n].held, xs[n].got)
                    && NoneFails(before, ReadInputs(xs[n].fd, cap, xs[n].held, xs[n].got)))
    ensures IsRun(st, Flat(cuts, |xs|) + [SchedulerIn(at.schedAt, at.wr)] + [SweepIn(at.sweepAt)], k.end.st, k.end.sent)
  {
    cuts := seq(|xs|, n requires 0 <= n < |xs| => Cut1(cap, k.turned[n].st, xs[n]));
    CourseBegins(k, cap, st, xs, at);
    forall n: nat | n < |xs|
      ensures Linked(k.turned, cuts, n)
    {
      EventLeads(k, cap, st, xs, at, n);
    }
    forall n: nat | n < |xs|
      ensures var before := StateAfter(st, Flat(cuts, n));
              && cuts[n] == UntilFailure(before, ReadInputs(xs[n].fd, cap, xs[n].held, xs[n].got))
              && (k.event[n].open <==>
                    && Undisturbed(cap, xs[n].held, xs[n].got)
                    && NoneFails(before, ReadInputs(xs[n].fd, cap, xs[n].held, xs[n].got)))
    {
      ChainIsRun(k.turned, cuts, n);
      EventLeads(k, cap, st, xs, at, n);
    }
    ChainIsRun(k.turned, cuts, |xs|);
    CourseEnds(k, cap, st, xs, at);
    ThenPeriodic(st, Flat(cuts, |xs|), k.turned[|xs|], at);
  }

  lemma ThenPeriodic(st: State, es: seq<Input>, t: Turned, at: Clock)
    requires IsRun(st, es, t.st, t.sent)
    ensures IsRun(st, es + [SchedulerIn(at.schedAt, at.wr)] + [SweepIn(at.sweepAt)], TurnEnd(t, at).st, TurnEnd(t, at).sent)
  {
    ThenStep(st, es, t.st, t.sent, SchedulerIn(at.schedAt, at.wr));
    var o := Step(t.st, SchedulerIn(at.schedAt, at.wr));
    ThenStep(st, es + [SchedulerIn(at.schedAt, at.wr)], o.st, t.sent + o.sent, SweepIn(at.sweepAt));
    assert t.sent + o.sent + [] == t.sent + o.sent;
  }

  lemma ThenStep(st: State, es: seq<Input>, st1: State, sent: seq<Packet>, e: Input)
    requires IsRun(st, es, st1, sent)
    ensures IsRun(st, es + [e], Step(st1, e).st, sent + Step(st1, e).sent)
  {
    RunOne(st1, e);
    RunsJoin(st, es, st1, sent, [e], Step(st1, e).st, Step(st1, e).sent);
  }

  /** The connections have sessions and buffers of their own. */
  predicate Apart(clients: seq<Client>, line: array<char>, wbuf: array<char>, swbuf: array<char>) {
    && (forall c | c in clients :: line != c.session.buf && wbuf != c.session.buf && swbuf != c.session.buf)
    && Separate(clients)
  }

  predicate Separate(clients: seq<Client>) {
    forall i: nat, j: nat | i < j < |clients| :: TwoApart(clients, i, j)
  }

  predicate TwoApart(clients: seq<Client>, i: nat, j: nat)
    requires i < |clients| && j < |clients|
  {
    && clients[i].session != clients[j].session && clients[i].session.buf != clients[j].session.buf
    && clients[i].conn != clients[j].conn
  }

  /** x says what the client's reads will find and return. */
  ghost predicate Shows(c: Client, x: Ready)
    reads c.conn, c.session, c.session.buf
  {
    c.session.Valid() && x.fd == c.conn.fd && x.held == c.session.Bytes() && x.since == c.conn.lastActiveMs
  }

  /** unregister_connection, as part of close_connection. */
  method CloseConnection(table: Table, c: Connection, ghost gone: seq<Connection>, ghost s0: seq<Connection>)
    returns (ghost gone': seq<Connection>)
    requires table.Valid() && multiset(table.Conns()) + multiset(gone) == multiset(s0)
    modifies table`count, table.slots
    ensures table.Valid() && multiset(table.Conns()) + multiset(gone') == multiset(s0)
    ensures gone' == gone || gone' == gone + [c]
    ensures forall x | x in table.Conns() :: x in old(table.Conns())
    ensures Distinct(old(table.Conns())) ==> Distinct(table.Conns()) && c !in table.Conns()
  {
    ghost var s := table.Conns();
    ghost var k := table.Unregister(c);
    gone' := if k < |s| then gone + [c] else gone;
    if k < |s| {
      Removed(s, k);
    }
  }

  method CloseUnless(open: bool, table: Table, c: Connection, ghost gone: seq<Connection>, ghost s0: seq<Connection>)
    returns (ghost gone': seq<Connection>)
    requires table.Valid() && multiset(table.Conns()) + multiset(gone) == multiset(s0)
    modifies table`count, table.slots
    ensures table.Valid() && multiset(table.Conns()) + multiset(gone') == multiset(s0)
    ensures gone' == gone || (!open && gone' == gone + [c])
    ensures forall x | x in table.Conns() :: x in old(table.Conns())
    ensures Distinct(old(table.Conns())) ==> Distinct(table.Conns()) && (!open ==> c !in table.Conns())
  {
    gone' := gone;
    if !open {
      gone' := CloseConnection(table, c, gone, s0);
    }
  }

  lemma Removed<T>(s: seq<T>, k: nat)
    requires k < |s|
    ensures multiset(SwapRemoved(s, k)) + multiset{s[k]} == multiset(s)
    ensures forall x | x in SwapRemoved(s, k) :: x in s
    ensures Distinct(s) ==> Distinct(SwapRemoved(s, k)) && s[k] !in SwapRemoved(s, k)
  {
    SwapRemovedMultiset(s, k);
  }

  /** c is one of the first n connections, and its event closed it. */
  predicate ClosedBefore(c: Connection, clients: seq<Client>, k: Course, n: nat)
    requires n <= |clients| == |k.event|
  {
    exists j | 0 <= j < n :: clients[j].conn == c && !k.event[j].open
  }

  /** None of the first n connections that their events closed is in the table. */
  predicate ClosedLeft(conns: seq<Connection>, clients: seq<Client>, k: Course, n: nat)
    requires n <= |clients| == |k.event|
  {
    forall j | 0 <= j < n && !k.event[j].open :: clients[j].conn !in conns
  }

  /** The daemon, the outbox and the table after the first n reported connections. */
  predicate TurnStands(st: State, outbox: seq<Packet>, conns: seq<Connection>, clients: seq<Client>, k: Course, n: nat,
                       out0: seq<Packet>, s0: seq<Connection>, gone: seq<Connection>)
    requires n <= |clients| == |k.event| && |k.turned| == |k.event| + 1
  {
    && st == k.turned[n].st && outbox == out0 + k.turned[n].sent
    && multiset(conns) + multiset(gone) == multiset(s0)
    && (forall c | c in gone :: ClosedBefore(c, clients, k, n))
    && (Distinct(s0) ==> Distinct(conns) && ClosedLeft(conns, clients, k, n))
  }

  lemma TurnBegins(st: State, outbox: seq<Packet>, conns: seq<Connection>, clients: seq<Client>, k: Course)
    requires |k.event| == |clients| && |k.turned| == |clients| + 1 && k.turned[0] == Turned(st, [])
    ensures TurnStands(st, outbox, conns, clients, k, 0, outbox, conns, [])
  {
    assert outbox + [] == outbox;
  }

  lemma TurnNext(st: State, outbox: seq<Packet>, conns: seq<Connection>, conns': seq<Connection>, clients: seq<Client>,
                 k: Course, n: nat, out0: seq<Packet>, s0: seq<Connection>, gone: seq<Connection>, gone': seq<Connection>)
    requires n < |clients| == |k.event| && |k.turned| == |k.event| + 1
    requires TurnStands(st, outbox, conns, clients, k, n, out0, s0, gone)
    requires k.turned[n + 1] == Turned(k.event[n].st, k.turned[n].sent + k.event[n].sent)
    requires multiset(conns') + multiset(gone') == multiset(s0)
    requires gone' == gone || (!k.event[n].open && gone' == gone + [clients[n].conn])
    requires forall y | y in conns' :: y in conns
    requires Distinct(conns) ==> Distinct(conns') && (!k.event[n].open ==> clients[n].conn !in conns')
    ensures TurnStands(k.event[n].st, outbox + k.event[n].sent, conns', clients, k, n + 1, out0, s0, gone')
  {
    Assoc(out0, k.turned[n].sent, k.event[n].sent);
    forall c | c in gone'
      ensures ClosedBefore(c, clients, k, n + 1)
    {
      if c in gone {
        var j :| 0 <= j < n && clients[j].conn == c && !k.event[j].open;
      }
    }
  }

  ghost predicate ServedAt(clients: seq<Client>, xs: seq<Ready>, k: Course, j: nat)
    requires j < |xs| == |clients| == |k.event|
    reads clients[j].conn, clients[j].session, clients[j].session.buf
  {
    Served(clients[j], k.event[j], xs[j].since)
  }

  ghost predicate ShownAt(clients: seq<Client>, xs: seq<Ready>, j: nat)
    requires j < |xs| == |clients|
    reads clients[j].conn, clients[j].session, clients[j].session.buf
  {
    Shows(clients[j], xs[j])
  }

  /** The first n reported connections were served, the others are as they were. */
  ghost predicate ServedUpTo(clients: seq<Client>, xs: seq<Ready>, k: Course, n: nat)
    reads set c | c in clients :: c.conn, set c | c in clients :: c.session, set c | c in clients :: c.session.buf
    requires n <= |xs| == |clients| == |k.event|
  {
    && (forall j: nat {:trigger ServedAt(clients, xs, k, j)} | j < n :: clients[j] in clients && ServedAt(clients, xs, k, j))
    && (forall j: nat {:trigger ShownAt(clients, xs, j)} | n <= j < |clients| :: clients[j] in clients && ShownAt(clients, xs, j))
  }

  lemma OthersApart(clients: seq<Client>, i: nat)
    requires Separate(clients) && i < |clients|
    ensures forall j | 0 <= j < |clients| && j != i ::
              && clients[j].session != clients[i].session && clients[j].session.buf != clients[i].session.buf
              && clients[j].conn != clients[i].conn
  {
    forall j | 0 <= j < |clients| && j != i
      ensures clients[j].session != clients[i].session && clients[j].session.buf != clients[i].session.buf
      ensures clients[j].conn != clients[i].conn
    {
      assert if i < j then TwoApart(clients, i, j) else TwoApart(clients, j, i);
    }
  }

  /** Serving one connection leaves the others as they are. */
  method HandleOne(app: App, clients: seq<Client>, ghost xs: seq<Ready>, rs: seq<Read>, i: nat, ghost k: Course,
                   line: array<char>, wbuf: array<char>, ghost swbuf: array<char>)
    returns (open: bool)
    requires i < |xs| == |clients| == |k.event| && app.Valid() && wbuf.Length == WBUF && wbuf != line
    requires Apart(clients, line, wbuf, swbuf) && ServedUpTo(clients, xs, k, i)
    requires k.event[i] == EventOf(xs[i].fd, line.Length, app.View(), xs[i].held, rs)
    modifies app, app.tracker.items, app.registry, line, wbuf
    modifies clients[i].conn, clients[i].session`len, clients[i].session.buf
    ensures app.Valid() && ServedUpTo(clients, xs, k, i + 1)
    ensures app.View() == k.event[i].st && app.outbox == old(app.outbox) + k.event[i].sent && open == k.event[i].open
  {
    assert clients[i] in clients && ShownAt(clients, xs, i);
    OthersApart(clients, i);
    open := HandleEvent(app, clients[i], rs, line, wbuf);
  }

  /** Its event is the next of the course. */
  method ServeOne(app: App, clients: seq<Client>, ghost xs: seq<Ready>, got: seq<seq<Read>>, i: nat, ghost k: Course,
                  line: array<char>, wbuf: array<char>, ghost swbuf: array<char>)
    returns (open: bool)
    requires i < |xs| == |clients| == |got| && app.Valid() && wbuf.Length == WBUF && wbuf != line
    requires Apart(clients, line, wbuf, swbuf) && Proceeds(k, line.Length, xs)
    requires ServedUpTo(clients, xs, k, i) && xs[i].got == got[i] && app.View() == k.turned[i].st
    modifies app, app.tracker.items, app.registry, line, wbuf
    modifies clients[i].conn, clients[i].session`len, clients[i].session.buf
    ensures app.Valid() && ServedUpTo(clients, xs, k, i + 1)
    ensures app.View() == k.event[i].st && app.outbox == old(app.outbox) + k.event[i].sent && open == k.event[i].open
  {
    assert TakesTurn(k, line.Length, xs, i);
    open := HandleOne(app, clients, xs, got[i], i, k, line, wbuf, swbuf);
  }

  /** The table after connection i: closed or not, the turn stands one further. */
  method FinishOne(table: Table, clients: seq<Client>, open: bool, i: nat, ghost k: Course, ghost st: State,
                   ghost out: seq<Packet>, ghost out0: seq<Packet>, ghost s0: seq<Connection>, ghost gone: seq<Connection>)
    returns (ghost gone': seq<Connection>)
    requires table.Valid() && i < |clients| == |k.event| && |k.turned| == |k.event| + 1 && open == k.event[i].open
    requires k.turned[i + 1] == Turned(k.event[i].st, k.turned[i].sent + k.event[i].sent)
    requires TurnStands(st, out, table.Conns(), clients, k, i, out0, s0, gone)
    modifies table`count, table.slots
    ensures table.Valid()
    ensures TurnStands(k.event[i].st, out + k.event[i].sent, table.Conns(), clients, k, i + 1, out0, s0, gone')
  {
    ghost var conns := table.Conns();
    gone' := CloseUnless(open, table, clients[i].conn, gone, s0);
    TurnNext(st, out, conns, table.Conns(), clients, k, i, out0, s0, gone, gone');
  }

  /** Everything that serving the reported connections changes. */
  ghost function Touched(app: App, table: Table, clients: seq<Client>, line: array<char>, wbuf: array<char>): set<object>
  {
    {app, app.tracker.items, app.registry, table, table.slots, line, wbuf}
    + (set c | c in clients :: c.conn) + (set c | c in clients :: c.session) + (set c | c in clients :: c.session.buf)
  }

  ghost predicate InHand(own: set<object>, app: App, table: Table, clients: seq<Client>, line: array<char>, wbuf: array<char>)
  {
    && {app, app.tracker.items, app.registry, table, table.slots, line, wbuf} <= own
    && (forall c | c in clients :: c.conn in own && c.session in own && c.session.buf in own)
  }

  /** One reported connection; if its event closes it, it leaves the table. */
  method HandleNext(app: App, table: Table, clients: seq<Client>, ghost xs: seq<Ready>, got: seq<seq<Read>>, i: nat,
                    ghost k: Course, ghost out0: seq<Packet>, ghost s0: seq<Connection>, ghost gone: seq<Connection>,
                    line: array<char>, wbuf: array<char>, ghost swbuf: array<char>, ghost own: set<object>)
    returns (ghost gone': seq<Connection>)
    requires i < |xs| == |clients| == |got| && app.Valid() && table.Valid() && wbuf.Length == WBUF && wbuf != line
    requires Apart(clients, line, wbuf, swbuf) && Proceeds(k, line.Length, xs)
    requires InHand(own, app, table, clients, line, wbuf) && ServedUpTo(clients, xs, k, i) && xs[i].got == got[i]
    requires TurnStands(app.View(), app.outbox, table.Conns(), clients, k, i, out0, s0, gone)
    modifies own
    ensures app.Valid() && table.Valid() && ServedUpTo(clients, xs, k, i + 1)
    ensures TurnStands(app.View(), app.outbox, table.Conns(), clients, k, i + 1, out0, s0, gone')
  {
    ghost var st, out := app.View(), app.outbox;
    assert TakesTurn(k, line.Length, xs, i) && clients[i] in clients;
    var open := ServeOne(app, clients, xs, got, i, k, line, wbuf, swbuf);
    gone' := FinishOne(table, clients, open, i, k, st, out, out0, s0, gone);
  }

  /** The loop over the reported connections. */
  method HandleEvents(app: App, table: Table, clients: seq<Client>, ghost xs: seq<Ready>, got: seq<seq<Read>>,
                      ghost k: Course, line: array<char>, wbuf: array<char>, ghost swbuf: array<char>, ghost own: set<object>)
    returns (ghost gone: seq<Connection>)
    requires app.Valid() && table.Valid() && |xs| == |clients| == |got| && wbuf.Length == WBUF && wbuf != line
    requires Apart(clients, line, wbuf, swbuf) && Proceeds(k, line.Length, xs) && k.turned[0] == Turned(app.View(), [])
    requires InHand(own, app, table, clients, line, wbuf) && ServedUpTo(clients, xs, k, 0) && forall i | 0 <= i < |clients| :: xs[i].got == got[i]
    modifies own
    ensures app.Valid() && table.Valid() && ServedUpTo(clients, xs, k, |clients|)
    ensures TurnStands(app.View(), app.outbox, table.Conns(), clients, k, |clients|, old(app.outbox), old(table.Conns()), gone)
  {
    gone := [];
    ghost var out0, s0 := app.outbox, table.Conns();
    TurnBegins(app.View(), out0, s0, clients, k);
    var i := 0;
    while i < |clients|
      invariant 0 <= i <= |clients| && app.Valid() && table.Valid()
      invariant ServedUpTo(clients, xs, k, i)
      invariant TurnStands(app.View(), app.outbox, table.Conns(), clients, k, i, out0, s0, gone)
    {
      gone := HandleNext(app, table, clients, xs, got, i, k, out0, s0, gone, line, wbuf, swbuf, own);
      i := i + 1;
    }
  }

  /** run_scheduler and the timeout sweep. */
  method Periodic(app: App, at: Clock, swbuf: array<char>, ghost t: Turned, ghost out0: seq<Packet>)
    requires app.Valid() && swbuf.Length == SCHED_WBUF && app.View() == t.st && app.outbox == out0 + t.sent
    modifies app, app.tracker.items, app.registry, swbuf
    ensures app.Valid() && app.View() == TurnEnd(t, at).st && app.outbox == out0 + TurnEnd(t, at).sent
  {
    Assoc(out0, t.sent, Step(t.st, SchedulerIn(at.schedAt, at.wr)).sent);
    app.RunScheduler(at.schedAt, swbuf, at.wr);
    app.SweepTimeouts(at.sweepAt);
  }

  /** The end of a turn leaves connections and table as they are. */
  method EndTurn(app: App, table: Table, clients: seq<Client>, at: Clock, swbuf: array<char>, ghost k: Course, ghost cap: nat,
                 ghost st0: State, ghost xs: seq<Ready>, ghost out0: seq<Packet>)
    requires app.Valid() && table.Valid() && swbuf.Length == SCHED_WBUF && IsCourse(k, cap, st0, xs, at)
    requires app.View() == k.turned[|xs|].st && app.outbox == out0 + k.turned[|xs|].sent
    requires |xs| == |clients| && ServedUpTo(clients, xs, k, |clients|) && forall c | c in clients :: swbuf != c.session.buf
    modifies app, app.tracker.items, app.registry, swbuf
    ensures app.Valid() && app.View() == k.end.st && app.outbox == out0 + k.end.sent
    ensures table.Valid() && table.Conns() == old(table.Conns()) && ServedUpTo(clients, xs, k, |clients|)
  {
    CourseEnds(k, cap, st0, xs, at);
    Periodic(app, at, swbuf, k.turned[|xs|], out0);
  }

  /** What left the table was closed by its own event, and what was closed left it. */
  predicate Left(conns: seq<Connection>, clients: seq<Client>, k: Course, s0: seq<Connection>, gone: seq<Connection>)
    requires |clients| == |k.event|
  {
    && multiset(conns) + multiset(gone) == multiset(s0)
    && (forall c | c in gone :: ClosedBefore(c, clients, k, |clients|))
    && (Distinct(s0) ==> ClosedLeft(conns, clients, k, |clients|))
  }

  method ServeAll(app: App, table: Table, clients: seq<Client>, ghost xs: seq<Ready>, got: seq<seq<Read>>, ghost k: Course,
                  at: Clock, line: array<char>, wbuf: array<char>, swbuf: array<char>)
    returns (ghost gone: seq<Connection>)
    requires app.Valid() && table.Valid() && |xs| == |clients| == |got|
    requires wbuf.Length == WBUF && swbuf.Length == SCHED_WBUF && wbuf != line && Apart(clients, line, wbuf, swbuf)
    requires IsCourse(k, line.Length, app.View(), xs, at)
    requires ServedUpTo(clients, xs, k, 0) && forall i | 0 <= i < |clients| :: xs[i].got == got[i]
    modifies app, app.tracker.items, app.registry, table, table.slots, line, wbuf, swbuf
    modifies set c | c in clients :: c.conn, set c | c in clients :: c.session, set c | c in clients :: c.session.buf
    ensures app.Valid() && table.Valid() && ServedUpTo(clients, xs, k, |clients|)
    ensures app.View() == k.end.st && app.outbox == old(app.outbox) + k.end.sent
    ensures Left(table.Conns(), clients, k, old(table.Conns()), gone)
  {
    ghost var st0, out0 := app.View(), app.outbox;
    CourseBegins(k, line.Length, st0, xs, at);
    CourseProceeds(k, line.Length, st0, xs, at);
    gone := HandleEvents(app, table, clients, xs, got, k, line, wbuf, swbuf, Touched(app, table, clients, line, wbuf));
    EndTurn(app, table, clients, at, swbuf, k, line.Length, st0, xs, out0);
  }

  /** What is left after the scan, if nothing that was closed is idle's own. */
  lemma LeftAndIdle(conns: seq<Connection>, conns': seq<Connection>, idle: seq<Connection>, gone: seq<Connection>, s0: seq<Connection>)
    requires multiset(conns) + multiset(gone) == multiset(s0) && multiset(conns') + multiset(idle) == multiset(conns)
    ensures multiset(conns') + multiset(idle) + multiset(gone) == multiset(s0)
    ensures forall c | c in conns' :: c in conns
    ensures forall c | c in s0 && c !in idle && c !in gone :: c in conns'
  {
    assert forall c | c in conns' :: c in multiset(conns);
    assert forall c :: multiset(s0)[c] == multiset(conns')[c] + multiset(idle)[c] + multiset(gone)[c];
    forall c | c in s0 && c !in idle && c !in gone
      ensures c in conns'
    {
      assert c in multiset(s0) && c !in multiset(idle) && c !in multiset(gone);
    }
  }

  /** A connection that stays open and was just heard of is not idle. */
  lemma NotYetIdle(c: Client, ev: Event, x: Ready, scanAt: int, cap: nat, st: State)
    requires Served(c, ev, x.since) && ev == EventOf(x.fd, cap, st, x.held, x.got) && ev.open && x.got != []
    ensures x.got[|x.got| - 1].Data? && c.conn.lastActiveMs == x.got[|x.got| - 1].at
    ensures scanAt - x.got[|x.got| - 1].at <= 60000 ==> !Idle(c.conn, scanAt)
  {
    OpenEvent(x.fd, cap, st, x.held, x.got);
  }

  /** The last read was of data, and if it is no more than 60000 ms old the connection is not idle and stays. */
  ghost predicate OutlastsOne(c: Client, rs: seq<Read>, scanAt: int, s0: seq<Connection>, conns: seq<Connection>,
                              idle: seq<Connection>)
    requires rs != []
  {
    && rs[|rs| - 1].Data?
    && (scanAt - rs[|rs| - 1].at <= 60000 ==> c.conn !in idle && (c.conn in s0 ==> c.conn in conns))
  }

  /** The reported connections that stay open and have just been read outlast the scan. */
  ghost predicate Outlasts(clients: seq<Client>, k: Course, got: seq<seq<Read>>, scanAt: int, s0: seq<Connection>,
                           conns: seq<Connection>, idle: seq<Connection>)
    requires |clients| == |k.event| == |got|
  {
    forall i: nat | i < |clients| && k.event[i].open && got[i] != [] ::
      OutlastsOne(clients[i], got[i], scanAt, s0, conns, idle)
  }

  lemma OpenStays(clients: seq<Client>, k: Course, gone: seq<Connection>, i: nat)
    requires i < |clients| == |k.event| && k.event[i].open && Separate(clients)
    requires forall c | c in gone :: ClosedBefore(c, clients, k, |clients|)
    ensures clients[i].conn !in gone
  {
    OthersApart(clients, i);
    forall c | c in gone
      ensures c != clients[i].conn
    {
      var j :| 0 <= j < |clients| && clients[j].conn == c && !k.event[j].open;
    }
  }

  lemma OutlastsScan(clients: seq<Client>, xs: seq<Ready>, k: Course, got: seq<seq<Read>>, scanAt: int, cap: nat, st0: State, at: Clock,
                     s0: seq<Connection>, conns: seq<Connection>, conns': seq<Connection>, idle: seq<Connection>,
                     gone: seq<Connection>)
    requires |clients| == |xs| == |got| == |k.event| && IsCourse(k, cap, st0, xs, at)
    requires ServedUpTo(clients, xs, k, |clients|) && forall i | 0 <= i < |clients| :: xs[i].got == got[i]
    requires Separate(clients)
    requires Left(conns, clients, k, s0, gone) && multiset(conns') + multiset(idle) == multiset(conns)
    requires forall c | c in idle :: Idle(c, scanAt)
    ensures Outlasts(clients, k, got, scanAt, s0, conns', idle)
  {
    LeftAndIdle(conns, conns', idle, gone, s0);
    forall i: nat | i < |clients| && k.event[i].open && got[i] != []
      ensures OutlastsOne(clients[i], got[i], scanAt, s0, conns', idle)
    {
      assert ServedAt(clients, xs, k, i);
      OpenStays(clients, k, gone, i);
      CourseNext(k, cap, st0, xs, at, i);
      NotYetIdle(clients[i], k.event[i], xs[i], scanAt, cap, k.turned[i].st);
    }
  }

  /** The reads are about to begin. */
  ghost predicate AllShow(clients: seq<Client>, xs: seq<Ready>, got: seq<seq<Read>>)
    reads set c | c in clients :: c.conn, set c | c in clients :: c.session, set c | c in clients :: c.session.buf
    requires |xs| == |clients| == |got|
  {
    forall i | 0 <= i < |clients| :: clients[i] in clients && Shows(clients[i], xs[i]) && xs[i].got == got[i]
  }

  /** What a turn makes of the table s0. What leaves it was closed by its own event or is idle, and nothing that was closed
      or is idle stays; what stays open and was read no more than 60000 ms before the scan stays. */
  ghost predicate TableAfter(s0: seq<Connection>, conns: seq<Connection>, idle: seq<Connection>, gone: seq<Connection>,
                             clients: seq<Client>, k: Course, got: seq<seq<Read>>, scanAt: int)
    reads conns, idle
    requires |clients| == |k.event| == |got|
  {
    && multiset(conns) + multiset(idle) + multiset(gone) == multiset(s0)
    && (forall c | c in gone :: ClosedBefore(c, clients, k, |clients|))
    && (Distinct(s0) ==> ClosedLeft(conns, clients, k, |clients|))
    && (forall c | c in idle :: Idle(c, scanAt)) && (forall c | c in conns :: !Idle(c, scanAt))
    && Outlasts(clients, k, got, scanAt, s0, conns, idle)
  }

  /** The idle scan. */
  method Scan(table: Table, clients: seq<Client>, ghost xs: seq<Ready>, ghost k: Course, got: seq<seq<Read>>, scanAt: int,
              ghost cap: nat, ghost st0: State, ghost at: Clock, ghost s0: seq<Connection>, ghost gone: seq<Connection>)
    returns (idle: seq<Connection>)
    requires table.Valid() && |clients| == |xs| == |got| == |k.event| && IsCourse(k, cap, st0, xs, at)
    requires ServedUpTo(clients, xs, k, |clients|) && forall i | 0 <= i < |clients| :: xs[i].got == got[i]
    requires Separate(clients)
    requires Left(table.Conns(), clients, k, s0, gone)
    modifies table`count, table.slots
    ensures table.Valid() && TableAfter(s0, table.Conns(), idle, gone, clients, k, got, scanAt)
  {
    ghost var conns := table.Conns();
    idle := table.ScanTimeouts(scanAt);
    LeftAndIdle(conns, table.Conns(), idle, gone, s0);
    OutlastsScan(clients, xs, k, got, scanAt, cap, st0, at, s0, conns, table.Conns(), idle, gone);
  }

  method TurnBody(app: App, table: Table, clients: seq<Client>, ghost xs: seq<Ready>, got: seq<seq<Read>>,
                  at: Clock, scanAt: int, line: array<char>, wbuf: array<char>, swbuf: array<char>)
    returns (idle: seq<Connection>, ghost gone: seq<Connection>, ghost k: Course)
    requires app.Valid() && table.Valid() && |xs| == |clients| == |got|
    requires wbuf.Length == WBUF && swbuf.Length == SCHED_WBUF && wbuf != line && Apart(clients, line, wbuf, swbuf)
    requires AllShow(clients, xs, got)
    modifies app, app.tracker.items, app.registry, table, table.slots, line, wbuf, swbuf
    modifies set c | c in clients :: c.conn, set c | c in clients :: c.session, set c | c in clients :: c.session.buf
    ensures app.Valid() && table.Valid() && IsCourse(k, line.Length, old(app.View()), xs, at)
    ensures app.View() == k.end.st && app.outbox == old(app.outbox) + k.end.sent
    ensures TableAfter(old(table.Conns()), table.Conns(), idle, gone, clients, k, got, scanAt)
    ensures ServedUpTo(clients, xs, k, |clients|)
  {
    k := CourseOf(line.Length, app.View(), xs, at);
    ghost var st0, s0 := app.View(), table.Conns();
    gone := ServeAll(app, table, clients, xs, got, k, at, line, wbuf, swbuf);
    idle := Scan(table, clients, xs, k, got, scanAt, line.Length, st0, at, s0, gone);
  }

  ghost function TimesOf(conns: seq<Connection>): (ts: seq<int>)
    reads conns
    ensures |ts| == |conns| && forall i | 0 <= i < |conns| :: ts[i] == conns[i].lastActiveMs
  {
    seq(|conns|, i requires 0 <= i < |conns| reads conns => conns[i].lastActiveMs)
  }

  /** The connections that were not reported keep the times they had. */
  ghost predicate OthersKeep(s0: seq<Connection>, clients: seq<Client>, times: seq<int>)
    reads s0
    requires |times| == |s0|
  {
    forall i | 0 <= i < |s0| && (forall c | c in clients :: c.conn != s0[i]) :: s0[i].lastActiveMs == times[i]
  }

  /** The body of the main loop: the reported connections, run_scheduler, the timeout sweep, the idle scan. A reported
      connection is marked with the time of its last read and keeps, while it stays open, what framing leaves of its
      bytes; all other connections keep their time. */
  method LoopTurn(app: App, table: Table, clients: seq<Client>, ghost xs: seq<Ready>, got: seq<seq<Read>>,
                  at: Clock, scanAt: int, line: array<char>, wbuf: array<char>, swbuf: array<char>)
    returns (idle: seq<Connection>, ghost gone: seq<Connection>, ghost k: Course)
    requires app.Valid() && table.Valid() && |xs| == |clients| == |got|
    requires wbuf.Length == WBUF && swbuf.Length == SCHED_WBUF && wbuf != line && Apart(clients, line, wbuf, swbuf)
    requires AllShow(clients, xs, got)
    modifies app, app.tracker.items, app.registry, table, table.slots, line, wbuf, swbuf
    modifies set c | c in clients :: c.conn, set c | c in clients :: c.session, set c | c in clients :: c.session.buf
    ensures app.Valid() && table.Valid() && IsCourse(k, line.Length, old(app.View()), xs, at)
    ensures app.View() == k.end.st && app.outbox == old(app.outbox) + k.end.sent
    ensures TableAfter(old(table.Conns()), table.Conns(), idle, gone, clients, k, got, scanAt)
    ensures ServedUpTo(clients, xs, k, |clients|)
    ensures OthersKeep(old(table.Conns()), clients, old(TimesOf(table.Conns())))
  {
    idle, gone, k := TurnBody(app, table, clients, xs, got, at, scanAt, line, wbuf, swbuf);
  }
}
