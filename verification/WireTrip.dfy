/** The whole wire stack: print, cut into reads, frame, parse. */
module WireTrip {
  import opened Wrappers
  import opened Text
  import opened Messages
  import opened Codec
  import opened Stream
  import opened Sessions
  import opened CodecBuffers

  /** The messages that survive the wire. */
  predicate Wirable(m: Message) {
    && Storable(m) && Known(m) && TextBlankFree(m) && EndsClean(m)
    && (m.state.Some? ==> LfFree(m.state.value)) && (m.msg.Some? ==> LfFree(m.msg.value))
    && |Render(m)| <= SCRATCH - 2
  }

  function RenderAll(ms: seq<Message>): seq<string> {
    seq(|ms|, i requires 0 <= i < |ms| => Render(ms[i]))
  }

  function ParseAll(ts: seq<string>): seq<Option<Message>> {
    seq(|ts|, i requires 0 <= i < |ts| => Parse(ts[i]))
  }

  lemma KeyValueLfFree(key: string, v: string)
    requires LfFree(key) && LfFree(v)
    ensures LfFree(" " + (key + "=" + v))
  {
  }

  lemma PieceLfFree(m: Message, k: Key)
    requires Wirable(m)
    ensures LfFree(Piece(m, k))
  {
    KeyVocabulary(k);
    if FieldText(m, k).Some? {
      NumericField(m, k);
      KeyValueLfFree(KeyText(k), FieldText(m, k).value);
    }
  }

  lemma RenderIsLine(m: Message)
    requires Wirable(m)
    ensures IsLine(Render(m))
  {
    forall k: Key
      ensures LfFree(Piece(m, k))
    {
      PieceLfFree(m, k);
    }
    Vocabulary(m.role, m.typ);
    assert LfFree(Head(m));
    assert LfFree(UpToOk(m));
    assert LfFree(UpToMsg(m));
    assert LfFree(Body(m));
    IndexOfIs(Render(m), LF, |Body(m)|);
  }

  lemma RenderedSplit(ms: seq<Message>)
    requires forall m | m in ms :: Wirable(m)
    ensures Split(Concat(RenderAll(ms))) == Cut(RenderAll(ms), "")
    ensures AllShort(RenderAll(ms), 512)
  {
    var ts := RenderAll(ms);
    forall t | t in ts
      ensures IsLine(t) && |t| < 512
    {
      var i :| 0 <= i < |ts| && ts[i] == t;
      RenderIsLine(ms[i]);
    }
    SplitOfLines(ts);
  }

  lemma WirableReturns(m: Message)
    requires Wirable(m)
    ensures Parse(Render(m)) == Some(m)
  {
    RoundTripExact(m);
  }

  lemma ParseRendered(ms: seq<Message>)
    requires forall m | m in ms :: Wirable(m)
    ensures ParseAll(RenderAll(ms)) == seq(|ms|, i requires 0 <= i < |ms| => Some(ms[i]))
  {
    forall i | 0 <= i < |ms|
      ensures Parse(RenderAll(ms)[i]) == Some(ms[i])
    {
      WirableReturns(ms[i]);
    }
  }

  /** Bytes whose lines are short, cut into reads and served. */
  lemma ServedBytes(bytes: string, d: Cut, chunks: seq<string>, cap: nat)
    requires forall c | c in chunks :: |c| <= 1024
    requires Concat(chunks) == bytes && Split(bytes) == d && AllShort(d.lines, cap) && |d.rest| < cap
    requires 2 <= cap <= 1024
    ensures Serve("", chunks, cap) == Served(d.lines, d.rest, false)
  {
    assert "" + Concat(chunks) == bytes;
    NeverOverflows("", chunks, cap);
  }

  /** End to end: any messages that fit, printed one after the other, cut into any reads of at most
      1024 bytes and drained into a 512 to 1024-byte line buffer, come out as exactly those messages. */
  lemma WireRoundTrip(ms: seq<Message>, chunks: seq<string>, cap: nat)
    requires forall m | m in ms :: Wirable(m)
    requires forall c | c in chunks :: |c| <= 1024
    requires Concat(chunks) == Concat(RenderAll(ms))
    requires 512 <= cap <= 1024
    ensures var s := Serve("", chunks, cap);
            && !s.closed && s.rest == ""
            && ParseAll(s.lines) == seq(|ms|, i requires 0 <= i < |ms| => Some(ms[i]))
  {
    RenderedSplit(ms);
    ServedBytes(Concat(RenderAll(ms)), Cut(RenderAll(ms), ""), chunks, cap);
    ParseRendered(ms);
  }

  lemma LineInBuffer(t: string, out: string)
    requires |t| < |out| && out[..|t|] == t && out[|t|] == NUL
    ensures Parse(out) == Parse(t)
  {
    var i := IndexOf(t, NUL);
    assert forall j | 0 <= j < |t| :: out[j] == t[j];
    IndexOfIs(out, NUL, i);
    assert CString(out) == CString(t);
  }

  /** Pop one line and parse it. */
  method PopAndParse(s: Session, line: array<char>) returns (got: int, r: Option<Message>)
    requires s.Valid() && line != s.buf
    modifies s`len, s.buf, line
    ensures s.Valid()
    ensures var p := PopFrom(old(s.Bytes()), line.Length);
            && got <= 1 && (got == 1 <==> p.Line?)
            && (p.Line? ==> r == Parse(p.text) && s.Bytes() == p.rest && s.len < old(s.len))
            && (!p.Line? ==> s.Bytes() == old(s.Bytes()) && s.len == old(s.len))
  {
    ghost var p := PopFrom(s.Bytes(), line.Length);
    got := s.PopLine(line);
    r := None;
    if got == 1 {
      LineInBuffer(p.text, line[..]);
      r := LineParse(line[..]);
    }
  }

  lemma ParseAllConcat(a: seq<string>, b: seq<string>)
    ensures ParseAll(a + b) == ParseAll(a) + ParseAll(b)
  {
  }

  /** One more line popped: where the drain stands. */
  lemma DrainStep(lines: seq<string>, b: string, cap: nat)
    requires PopFrom(b, cap).Line?
    ensures var p := PopFrom(b, cap);
            && ParseAll(lines + [p.text]) == ParseAll(lines) + [Parse(p.text)]
            && Join(Cut(lines, ""), Drain(b, cap)) == Join(Cut(lines + [p.text], ""), Drain(p.rest, cap))
  {
    var p := PopFrom(b, cap);
    DrainUnfold(b, cap);
    JoinCons(lines, p.text, Drain(p.rest, cap));
    ParseAllConcat(lines, [p.text]);
  }

  /** The pop loop: every complete line is parsed. */
  method DrainMessages(s: Session, line: array<char>) returns (msgs: seq<Option<Message>>)
    requires s.Valid() && line != s.buf
    modifies s`len, s.buf, line
    ensures s.Valid()
    ensures var d := Drain(old(s.Bytes()), line.Length); msgs == ParseAll(d.lines) && s.Bytes() == d.rest
  {
    msgs := [];
    ghost var lines: seq<string> := [];
    ghost var all := Drain(s.Bytes(), line.Length);
    assert [] + all.lines == all.lines;
    while true
      invariant s.Valid()
      invariant msgs == ParseAll(lines)
      invariant all == Join(Cut(lines, ""), Drain(s.Bytes(), line.Length))
      decreases s.len
    {
      ghost var b := s.Bytes();
      var got, r := PopAndParse(s, line);
      if got != 1 {
        assert lines + [] == lines;
        return;
      }
      DrainStep(lines, b, line.Length);
      msgs := msgs + [r];
      lines := lines + [PopFrom(b, line.Length).text];
    }
  }

  /** One read of the event loop: feed it, pop and parse every line that is complete. */
  method Receive(s: Session, chunk: string, line: array<char>) returns (ok: bool, msgs: seq<Option<Message>>)
    requires s.Valid() && line != s.buf
    modifies s`len, s.buf, line
    ensures s.Valid()
    ensures ok <==> |old(s.Bytes())| + |chunk| <= CAPACITY
    ensures !ok ==> msgs == [] && s.Bytes() == old(s.Bytes())
    ensures ok ==> var d := Drain(old(s.Bytes()) + chunk, line.Length);
                   msgs == ParseAll(d.lines) && s.Bytes() == d.rest
  {
    msgs := [];
    ok := s.Feed(chunk);
    if ok {
      msgs := DrainMessages(s, line);
    }
  }

  /** One more read taken: where the connection stands. */
  lemma ServeStep(lines: seq<string>, b: string, chunks: seq<string>, cap: nat)
    requires chunks != [] && |b| + |chunks[0]| <= CAPACITY
    ensures var d := Drain(b + chunks[0], cap);
            && ParseAll(lines + d.lines) == ParseAll(lines) + ParseAll(d.lines)
            && Taken(lines, Serve(b, chunks, cap)) == Taken(lines + d.lines, Serve(d.rest, chunks[1..], cap))
  {
    var d := Drain(b + chunks[0], cap);
    ParseAllConcat(lines, d.lines);
    TakenMore(lines, d.lines, Serve(d.rest, chunks[1..], cap));
  }

  /** What a run of reads gives when some lines were delivered before it. */
  function Taken(lines: seq<string>, r: Served): Served {
    Served(lines + r.lines, r.rest, r.closed)
  }

  lemma TakenMore(lines: seq<string>, more: seq<string>, r: Served)
    ensures Taken(lines, Served(more + r.lines, r.rest, r.closed)) == Taken(lines + more, r)
  {
    assert lines + (more + r.lines) == (lines + more) + r.lines;
  }

  /** The reads of one event, until one overflows the buffer: the connection is then closed. */
  method ReceiveAll(s: Session, chunks: seq<string>, line: array<char>) returns (closed: bool, msgs: seq<Option<Message>>)
    requires s.Valid() && line != s.buf
    modifies s`len, s.buf, line
    ensures s.Valid()
    ensures var r := Serve(old(s.Bytes()), chunks, line.Length);
            msgs == ParseAll(r.lines) && s.Bytes() == r.rest && closed == r.closed
  {
    msgs, closed := [], false;
    ghost var lines: seq<string> := [];
    ghost var all := Serve(s.Bytes(), chunks, line.Length);
    ghost var cap := line.Length;
    var i := 0;
    assert chunks[0..] == chunks && [] + all.lines == all.lines;
    while i < |chunks|
      invariant 0 <= i <= |chunks| && s.Valid() && cap == line.Length
      invariant msgs == ParseAll(lines)
      invariant all == Taken(lines, Serve(s.Bytes(), chunks[i..], cap))
    {
      ghost var b := s.Bytes();
      var ok, more := Receive(s, chunks[i], line);
      assert chunks[i..][0] == chunks[i] && chunks[i..][1..] == chunks[i + 1..];
      if !ok {
        assert lines + [] == lines;
        return true, msgs;
      }
      ServeStep(lines, b, chunks[i..], cap);
      msgs := msgs + more;
      lines := lines + Drain(b + chunks[i], cap).lines;
      i := i + 1;
    }
    assert lines + [] == lines;
  }
}
