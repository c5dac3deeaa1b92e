/** Framing as a theory of byte streams: lines, residue, chunks. */
module Stream {
  import opened Text

  const CAPACITY := 4096 // session_t.buf

  datatype Pop = NoLine | PopError | Line(text: string, rest: string)

  /** session_pop_line on a buffer holding b, into `cap` bytes. */
  function PopFrom(b: string, cap: nat): Pop {
    if cap < 2 then PopError else
      var i := IndexOf(b, LF);
      if i == |b| then NoLine
      else if i + 1 >= cap then PopError
      else Line(b[..i + 1], b[i + 1..])
  }

  datatype Cut = Cut(lines: seq<string>, rest: string)

  /** One line in front. */
  function Cons(t: string, c: Cut): Cut {
    Cut([t] + c.lines, c.rest)
  }

  /** Popping until no line comes out. */
  function Drain(b: string, cap: nat): Cut
    decreases |b|
  {
    match PopFrom(b, cap)
    case Line(t, r) => Cons(t, Drain(r, cap))
    case _ => Cut([], b)
  }

  /** The complete lines of a stream and what follows its last newline. */
  function Split(s: string): Cut
    decreases |s|
  {
    var i := IndexOf(s, LF);
    if i == |s| then Cut([], s)
    else Cons(s[..i + 1], Split(s[i + 1..]))
  }

  function Concat(ss: seq<string>): string {
    if ss == [] then "" else ss[0] + Concat(ss[1..])
  }

  /** A line as framing delivers it: its only newline is its last byte. */
  predicate IsLine(t: string) {
    t != "" && IndexOf(t, LF) == |t| - 1
  }

  predicate AllShort(ts: seq<string>, cap: nat) {
    forall t | t in ts :: |t| < cap
  }

  // ----- a connection that is fed in chunks

  datatype Served = Served(lines: seq<string>, rest: string, closed: bool)

  /** The read loop: feed a chunk, drain; an overflowing feed closes the connection, a failing pop does not. */
  function Serve(b: string, chunks: seq<string>, cap: nat): Served
    decreases |chunks|
  {
    if chunks == [] then Served([], b, false)
    else if |b| + |chunks[0]| > CAPACITY then Served([], b, true)
    else
      var d := Drain(b + chunks[0], cap);
      var s := Serve(d.rest, chunks[1..], cap);
      Served(d.lines + s.lines, s.rest, s.closed)
  }

  // ----- popping

  lemma IndexOfPrefix(b: string, c: string)
    requires IndexOf(b, LF) < |b|
    ensures IndexOf(b + c, LF) == IndexOf(b, LF)
  {
    var i := IndexOf(b, LF);
    assert (b + c)[i] == b[i];
    assert forall j | 0 <= j < i :: (b + c)[j] == b[j];
    IndexOfIs(b + c, LF, i);
  }

  /** A later feed does not change the next pop, unless it was waiting for a newline. */
  lemma PopAppend(b: string, c: string, cap: nat)
    ensures PopFrom(b, cap).PopError? ==> PopFrom(b + c, cap).PopError?
    ensures PopFrom(b, cap).Line? ==>
              PopFrom(b + c, cap) == Line(PopFrom(b, cap).text, PopFrom(b, cap).rest + c)
  {
    var i := IndexOf(b, LF);
    if i < |b| {
      IndexOfPrefix(b, c);
      assert (b + c)[..i + 1] == b[..i + 1] && (b + c)[i + 1..] == b[i + 1..] + c;
    }
  }

  lemma PopLineFacts(b: string, cap: nat)
    requires PopFrom(b, cap).Line?
    ensures var p := PopFrom(b, cap);
            IsLine(p.text) && |p.text| < cap && b == p.text + p.rest && |p.rest| < |b|
  {
    var t := PopFrom(b, cap).text;
    IndexOfIs(t, LF, |t| - 1);
  }

  lemma DrainUnfold(b: string, cap: nat)
    ensures var p := PopFrom(b, cap);
            Drain(b, cap) == if p.Line? then Cons(p.text, Drain(p.rest, cap)) else Cut([], b)
  {
  }

  lemma ConsConcat(t: string, c: Cut)
    ensures Concat(Cons(t, c).lines) + Cons(t, c).rest == t + (Concat(c.lines) + c.rest)
  {
    assert ([t] + c.lines)[1..] == c.lines;
    assert t + (Concat(c.lines) + c.rest) == (t + Concat(c.lines)) + c.rest;
  }

  /** Nothing is lost or made up; every line ends in its only newline and fits; no line is left over. */
  lemma {:induction false} DrainConserves(b: string, cap: nat)
    ensures var d := Drain(b, cap);
            && Concat(d.lines) + d.rest == b
            && (forall t | t in d.lines :: IsLine(t) && |t| < cap)
            && !PopFrom(d.rest, cap).Line?
    decreases |b|
  {
    DrainUnfold(b, cap);
    if PopFrom(b, cap).Line? {
      PopLineFacts(b, cap);
      var t, r := PopFrom(b, cap).text, PopFrom(b, cap).rest;
      DrainConserves(r, cap);
      ConsConcat(t, Drain(r, cap));
    } else {
      assert "" + b == b;
    }
  }

  /** Draining early and draining late agree. */
  lemma {:induction false} DrainAppend(b: string, c: string, cap: nat)
    ensures var d := Drain(b, cap);
            var e := Drain(d.rest + c, cap);
            Drain(b + c, cap) == Cut(d.lines + e.lines, e.rest)
    decreases |b|
  {
    PopAppend(b, c, cap);
    match PopFrom(b, cap)
    case Line(t, r) =>
      DrainAppend(r, c, cap);
      var d := Drain(r, cap);
      assert [t] + (d.lines + Drain(d.rest + c, cap).lines) == ([t] + d.lines) + Drain(d.rest + c, cap).lines;
    case _ =>
      assert [] + Drain(b + c, cap).lines == Drain(b + c, cap).lines;
  }

  /** One read more: the first read drained, then what the others give. */
  lemma OneMoreRead(b: string, c: string, more: string, s: Served, cap: nat)
    requires Drain(Drain(b + c, cap).rest + more, cap) == Cut(s.lines, s.rest)
    ensures Drain(b + (c + more), cap) == Cut(Drain(b + c, cap).lines + s.lines, s.rest)
  {
    assert b + (c + more) == (b + c) + more;
    DrainAppend(b + c, more, cap);
  }

  /** What a served connection delivers depends on the bytes alone, not on how they were cut. */
  lemma {:induction false} ServeIsDrain(b: string, chunks: seq<string>, cap: nat)
    requires Drain(b, cap).lines == []
    requires !Serve(b, chunks, cap).closed
    ensures var s := Serve(b, chunks, cap);
            Drain(b + Concat(chunks), cap) == Cut(s.lines, s.rest)
    decreases |chunks|
  {
    if chunks == [] {
      assert b + Concat(chunks) == b;
      DrainTwice(b, cap);
    } else {
      var d := Drain(b + chunks[0], cap);
      DrainTwice(b + chunks[0], cap);
      ServeIsDrain(d.rest, chunks[1..], cap);
      OneMoreRead(b, chunks[0], Concat(chunks[1..]), Serve(d.rest, chunks[1..], cap), cap);
    }
  }

  lemma DrainTwice(b: string, cap: nat)
    ensures Drain(Drain(b, cap).rest, cap).lines == []
  {
    DrainConserves(b, cap);
  }

  lemma ChunkIndependence(chunks: seq<string>, chunks': seq<string>, cap: nat)
    requires Concat(chunks) == Concat(chunks')
    requires !Serve("", chunks, cap).closed && !Serve("", chunks', cap).closed
    ensures Serve("", chunks, cap) == Serve("", chunks', cap)
  {
    ServeIsDrain("", chunks, cap);
    ServeIsDrain("", chunks', cap);
    assert "" + Concat(chunks) == "" + Concat(chunks');
  }

  // ----- lines that fit

  lemma AllShortCons(t: string, ts: seq<string>, cap: nat)
    ensures AllShort([t] + ts, cap) <==> |t| < cap && AllShort(ts, cap)
  {
    assert t in [t] + ts;
    assert forall x | x in ts :: x in [t] + ts;
  }

  lemma ConsInjective(t: string, a: Cut, b: Cut)
    ensures Cons(t, a) == Cons(t, b) <==> a == b
  {
    assert Cons(t, a).lines[1..] == a.lines && Cons(t, b).lines[1..] == b.lines;
  }

  lemma SplitUnfold(s: string, n: nat)
    requires n == IndexOf(s, LF) + 1 <= |s|
    ensures Split(s) == Cons(s[..n], Split(s[n..]))
  {
  }

  /** Everything is delivered exactly when every line fits the caller's buffer. */
  lemma {:induction false} DrainIsSplit(s: string, cap: nat)
    requires cap >= 2
    ensures Drain(s, cap) == Split(s) <==> AllShort(Split(s).lines, cap)
    decreases |s|
  {
    var n := IndexOf(s, LF) + 1;
    if n <= |s| {
      SplitUnfold(s, n);
      DrainUnfold(s, cap);
      var t, r := s[..n], s[n..];
      DrainIsSplit(r, cap);
      AllShortCons(t, Split(r).lines, cap);
      ConsInjective(t, Drain(r, cap), Split(r));
      assert |Split(s).lines| > 0;
    }
  }

  /** An over-long head line is never delivered, whatever is fed later: the connection is stuck behind it. */
  lemma {:induction false} StuckForever(b: string, chunks: seq<string>, cap: nat)
    requires PopFrom(b, cap).PopError? && |b| <= CAPACITY
    ensures var s := Serve(b, chunks, cap);
            && s.lines == [] && b <= s.rest
            && (s.closed <==> |b| + |Concat(chunks)| > CAPACITY)
    decreases |chunks|
  {
    if chunks != [] && |b| + |chunks[0]| <= CAPACITY {
      PopAppend(b, chunks[0], cap);
      StuckForever(b + chunks[0], chunks[1..], cap);
    }
  }

  lemma SplitHead(b: string, c: string)
    requires IndexOf(b, LF) < |b|
    ensures var n := IndexOf(b, LF) + 1;
            && Split(b) == Cons(b[..n], Split(b[n..]))
            && Split(b + c) == Cons(b[..n], Split(b[n..] + c))
  {
    var n := IndexOf(b, LF) + 1;
    SplitUnfold(b, n);
    IndexOfPrefix(b, c);
    assert (b + c)[..n] == b[..n] && (b + c)[n..] == b[n..] + c;
    SplitUnfold(b + c, n);
  }

  /** First the complete lines of a, then those of b. */
  function Join(a: Cut, b: Cut): Cut {
    Cut(a.lines + b.lines, b.rest)
  }

  lemma ConsJoin(t: string, a: Cut, b: Cut)
    ensures Join(Cons(t, a), b) == Cons(t, Join(a, b))
    ensures Join(Cut([], t), b) == b
  {
    assert ([t] + a.lines) + b.lines == [t] + (a.lines + b.lines);
    assert [] + b.lines == b.lines;
  }

  /** Splitting is compositional in the residue. */
  lemma {:induction false} SplitAppend(b: string, c: string)
    ensures Split(b + c) == Join(Split(b), Split(Split(b).rest + c))
    decreases |b|
  {
    var n := IndexOf(b, LF) + 1;
    if n <= |b| {
      SplitHead(b, c);
      var t, r := b[..n], b[n..];
      SplitAppend(r, c);
      ConsJoin(t, Split(r), Split(Split(r).rest + c));
    } else {
      ConsJoin(b, Split(b), Split(b + c));
    }
  }

  /** An unfinished line is no longer than the line, or the residue, it becomes. */
  lemma HeadBound(b: string, c: string, cap: nat)
    requires IndexOf(b, LF) == |b|
    requires AllShort(Split(b + c).lines, cap) && |Split(b + c).rest| < cap
    ensures |b| < cap
  {
    var s := b + c;
    var i := IndexOf(s, LF);
    assert forall j | 0 <= j < |b| :: s[j] == b[j];
    if i < |s| {
      assert s[..i + 1] == Split(s).lines[0];
    }
  }

  lemma SplitRest(s: string)
    ensures IndexOf(Split(s).rest, LF) == |Split(s).rest|
    decreases |s|
  {
  }

  /** With lines shorter than cap <= 1024 and reads of at most 1024 bytes the buffer never overflows,
      and every line of the stream is delivered. */
  lemma {:induction false} NeverOverflows(b: string, chunks: seq<string>, cap: nat)
    requires 2 <= cap <= 1024
    requires IndexOf(b, LF) == |b|
    requires forall c | c in chunks :: |c| <= 1024
    requires AllShort(Split(b + Concat(chunks)).lines, cap) && |Split(b + Concat(chunks)).rest| < cap
    ensures var s := Serve(b, chunks, cap);
            !s.closed && Split(b + Concat(chunks)) == Cut(s.lines, s.rest)
    decreases |chunks|
  {
    HeadBound(b, Concat(chunks), cap);
    if chunks == [] {
      assert b + Concat(chunks) == b;
    } else {
      var c, more := chunks[0], chunks[1..];
      assert c in chunks && forall x | x in more :: x in chunks;
      assert b + Concat(chunks) == (b + c) + Concat(more);
      SplitAppend(b + c, Concat(more));
      var d := Split(b + c);
      var e := Split(d.rest + Concat(more));
      assert forall t | t in d.lines :: t in d.lines + e.lines;
      assert forall t | t in e.lines :: t in d.lines + e.lines;
      DrainIsSplit(b + c, cap);
      SplitRest(b + c);
      NeverOverflows(d.rest, more, cap);
    }
  }

  lemma LineFirst(t: string, rest: string)
    requires IsLine(t)
    ensures Split(t + rest) == Cons(t, Split(rest))
  {
    var s := t + rest;
    IndexOfPrefix(t, rest);
    assert s[..|t|] == t && s[|t|..] == rest;
    SplitUnfold(s, |t|);
  }

  /** A sequence of lines splits into itself. */
  lemma {:induction false} SplitOfLines(ts: seq<string>)
    requires forall t | t in ts :: IsLine(t)
    ensures Split(Concat(ts)) == Cut(ts, "")
    decreases |ts|
  {
    if ts != [] {
      var t, more := ts[0], ts[1..];
      assert t in ts && forall x | x in more :: x in ts;
      SplitOfLines(more);
      assert [t] + more == ts;
      LineFirst(t, Concat(more));
    }
  }

  // ----- any history of feeds and pops

  datatype BufferOp = FeedOp(data: string) | PopOp(cap: nat)

  /** The buffer, the lines popped and the bytes accepted; a feed that does not fit is refused. */
  datatype Play = Play(buf: string, popped: seq<string>, fed: string)

  function Advanced(p: Play, op: BufferOp): Play {
    match op
    case FeedOp(d) => if |p.buf| + |d| > CAPACITY then p else Play(p.buf + d, p.popped, p.fed + d)
    case PopOp(cap) =>
      match PopFrom(p.buf, cap)
      case Line(t, r) => Play(r, p.popped + [t], p.fed)
      case _ => p
  }

  function Played(b: string, ops: seq<BufferOp>): Play {
    if ops == [] then Play(b, [], "") else Advanced(Played(b, ops[..|ops| - 1]), ops[|ops| - 1])
  }

  /** The popped lines followed by the buffer are the bytes accepted, and they are the stream's own lines. */
  predicate Faithful(b: string, p: Play) {
    && Concat(p.popped) + p.buf == b + p.fed
    && (forall t | t in p.popped :: IsLine(t))
    && Split(b + p.fed) == Join(Cut(p.popped, ""), Split(p.buf))
  }

  lemma JoinCons(lines: seq<string>, t: string, c: Cut)
    ensures Join(Cut(lines, ""), Cons(t, c)) == Join(Cut(lines + [t], ""), c)
  {
    assert lines + ([t] + c.lines) == (lines + [t]) + c.lines;
  }

  lemma JoinAssoc(a: Cut, b: Cut, c: Cut)
    ensures Join(Join(a, b), c) == Join(a, Join(b, c))
  {
    assert (a.lines + b.lines) + c.lines == a.lines + (b.lines + c.lines);
  }

  lemma ConcatSnoc(ts: seq<string>, t: string)
    ensures Concat(ts + [t]) == Concat(ts) + t
  {
    if ts == [] {
      assert [t][1..] == [] && t + "" == t && [] + [t] == [t];
    } else {
      assert (ts + [t])[1..] == ts[1..] + [t];
      ConcatSnoc(ts[1..], t);
    }
  }

  /** One more feed: the stream so far is x, the popped lines and what the buffer still holds. */
  lemma FeedKeepsSplit(x: string, popped: seq<string>, buf: string, d: string)
    requires Split(x) == Join(Cut(popped, ""), Split(buf))
    ensures Split(x + d) == Join(Cut(popped, ""), Split(buf + d))
  {
    SplitAppend(x, d);
    SplitAppend(buf, d);
    JoinAssoc(Cut(popped, ""), Split(buf), Split(Split(buf).rest + d));
  }

  lemma PopKeepsSplit(popped: seq<string>, buf: string, cap: nat)
    requires PopFrom(buf, cap).Line?
    ensures var p := PopFrom(buf, cap);
            && Join(Cut(popped, ""), Split(buf)) == Join(Cut(popped + [p.text], ""), Split(p.rest))
            && IsLine(p.text) && |p.text| < cap && |p.rest| < |buf| && buf == p.text + p.rest
  {
    PopLineFacts(buf, cap);
    SplitUnfold(buf, IndexOf(buf, LF) + 1);
    JoinCons(popped, PopFrom(buf, cap).text, Split(PopFrom(buf, cap).rest));
  }

  lemma FeedIsFaithful(b: string, p: Play, d: string)
    requires Faithful(b, p)
    ensures Faithful(b, Play(p.buf + d, p.popped, p.fed + d))
  {
    assert (b + p.fed) + d == b + (p.fed + d) && (Concat(p.popped) + p.buf) + d == Concat(p.popped) + (p.buf + d);
    FeedKeepsSplit(b + p.fed, p.popped, p.buf, d);
  }

  lemma PopIsFaithful(b: string, p: Play, cap: nat)
    requires Faithful(b, p) && PopFrom(p.buf, cap).Line?
    ensures var q := PopFrom(p.buf, cap); Faithful(b, Play(q.rest, p.popped + [q.text], p.fed))
  {
    PopKeepsSplit(p.popped, p.buf, cap);
    PoppedBytes(p.popped, p.buf, PopFrom(p.buf, cap).text, PopFrom(p.buf, cap).rest);
  }

  lemma PoppedBytes(popped: seq<string>, buf: string, t: string, r: string)
    requires buf == t + r
    ensures Concat(popped + [t]) + r == Concat(popped) + buf
  {
    ConcatSnoc(popped, t);
    assert (Concat(popped) + t) + r == Concat(popped) + (t + r);
  }

  lemma NothingPlayed(b: string)
    ensures Faithful(b, Play(b, [], ""))
  {
    assert b + "" == b && "" + b == b && [] + Split(b).lines == Split(b).lines;
  }

  /** After any history of feeds and pops, whatever their buffer sizes: nothing is lost or made up, every popped
      line ends in its only newline, and the lines come in the order of the stream, none of them skipped or cut. */
  lemma {:induction false} HistoryConserves(b: string, ops: seq<BufferOp>)
    ensures Faithful(b, Played(b, ops))
  {
    if ops == [] {
      NothingPlayed(b);
    } else {
      var p := Played(b, ops[..|ops| - 1]);
      HistoryConserves(b, ops[..|ops| - 1]);
      match ops[|ops| - 1]
      case FeedOp(d) => FeedIsFaithful(b, p, d);
      case PopOp(cap) =>
        if PopFrom(p.buf, cap).Line? {
          PopIsFaithful(b, p, cap);
        }
    }
  }
}
