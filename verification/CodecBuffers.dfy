/** line_format and line_parse as they run: over fixed buffers, written in place. */
module CodecBuffers {
  import opened Wrappers
  import opened Text
  import opened Messages
  import opened Codec

  /** snprintf at offset w: writes what fits, always terminates, returns the full length. */
  method Snprintf(out: array<char>, w: nat, text: string) returns (r: nat)
    requires w < out.Length
    modifies out
    ensures r == |text|
    ensures out[..w] == old(out[..w])
    ensures w + r < out.Length ==> out[w..w + r] == text && out[w + r] == NUL
  {
    r := |text|;
    var n := if w + r < out.Length then r else out.Length - 1 - w;
    var i := 0;
    while i < n
      invariant 0 <= i <= n
      invariant out[..w] == old(out[..w])
      invariant out[w..w + i] == text[..i]
    {
      out[w + i] := text[i];
      i := i + 1;
    }
    out[w + n] := NUL;
  }

  /** One optional field of line_format, after `done` has been written. */
  method AppendPiece(out: array<char>, w: nat, m: Message, k: Key, ghost done: string) returns (w': int)
    requires w < out.Length && out[..w] == done
    modifies out
    ensures w' == if |done + Piece(m, k)| < out.Length then |done + Piece(m, k)| else -1
    ensures w' >= 0 ==> out[..w'] == done + Piece(m, k)
  {
    w' := w;
    if FieldText(m, k).Some? {
      var r := Snprintf(out, w, " " + (KeyText(k) + "=" + FieldText(m, k).value));
      if w + r >= out.Length {
        return -1;
      }
      w' := w + r;
    }
  }

  /** Three consecutive optional fields, with the early return of each. */
  method AppendThree(out: array<char>, w: nat, m: Message, k0: Key, k1: Key, k2: Key, ghost done: string)
    returns (w': int)
    requires w < out.Length && out[..w] == done
    modifies out
    ensures var all := done + Piece(m, k0) + Piece(m, k1) + Piece(m, k2);
            && w' == (if |all| < out.Length then |all| else -1)
            && (w' >= 0 ==> out[..w'] == all)
  {
    w' := AppendPiece(out, w, m, k0, done);
    if w' < 0 {
      return -1;
    }
    w' := AppendPiece(out, w', m, k1, done + Piece(m, k0));
    if w' < 0 {
      return -1;
    }
    w' := AppendPiece(out, w', m, k2, done + Piece(m, k0) + Piece(m, k1));
  }

  method LineFormat(m: Message, out: array<char>) returns (w: int)
    modifies out
    ensures match Format(m, out.Length)
            case None => w == -1
            case Some(s) => w == |s| && w < out.Length && out[..w] == s && out[w] == NUL
  {
    if out.Length < 8 {
      return -1;
    }
    LengthsGrow(m);
    w := Snprintf(out, 0, Head(m));
    if w >= out.Length {
      return -1;
    }
    assert out[..w] == out[0..0 + w] == Head(m);
    w := AppendThree(out, w, m, KDev, KSeq, KOk, Head(m));
    if w < 0 {
      return -1;
    }
    w := AppendThree(out, w, m, KState, KCode, KMsg, UpToOk(m));
    if w < 0 {
      return -1;
    }
    w := AppendThree(out, w, m, KTemp, KPressure, KFlow, UpToMsg(m));
    if w < 0 || w + 2 > out.Length {
      return -1;
    }
    ghost var line := out[..w];
    out[w] := LF;
    assert out[..w + 1] == line + "\n";
    w := w + 1;
    out[w] := NUL;
  }

  lemma LengthsGrow(m: Message)
    ensures |Head(m)| <= |UpToOk(m)| <= |UpToMsg(m)| <= |Body(m)|
  {
  }

  // ----- line_parse

  /** rstrip_crlf on a string of length n. */
  method RStripCrlf(buf: array<char>, n: nat) returns (n': nat)
    requires n < buf.Length
    modifies buf
    ensures n' <= n && buf[..n'] == RStrip(old(buf[..n]))
  {
    n' := n;
    ghost var s := buf[..n];
    while n' > 0 && IsEol(buf[n' - 1])
      invariant n' <= n && buf[..n'] == s[..n']
      invariant RStrip(s) == RStrip(s[..n'])
    {
      assert s[..n'][..n' - 1] == s[..n' - 1];
      buf[n' - 1] := NUL;
      n' := n' - 1;
    }
  }

  lemma FirstToken(s: string, w: string, tail: string)
    requires w != "" && BlankFree(w)
    requires (s == w && tail == "") || (|s| > |w| && IsBlank(s[|w|]) && s == w + ([s[|w|]] + tail))
    ensures Tokens(s) == [w] + Tokens(tail)
  {
    TokensOfWord(w);
    if |s| > |w| {
      var rest := [s[|w|]] + tail;
      TokensConcat(w, rest);
      assert rest[1..] == tail;
    }
  }

  method SkipBlanks(buf: array<char>, save: nat, n: nat) returns (start: nat)
    requires save <= n < buf.Length
    ensures save <= start <= n && (start < n ==> !IsBlank(buf[start]))
    ensures Tokens(buf[save..n]) == Tokens(buf[start..n])
  {
    start := save;
    while start < n && IsBlank(buf[start])
      invariant save <= start <= n
      invariant Tokens(buf[save..n]) == Tokens(buf[start..n])
    {
      assert buf[start..n][1..] == buf[start + 1..n];
      start := start + 1;
    }
  }

  method WordEnd(buf: array<char>, start: nat, n: nat) returns (end: nat)
    requires start <= n < buf.Length
    ensures start <= end <= n && BlankFree(buf[start..end])
    ensures end < n ==> IsBlank(buf[end])
  {
    end := start;
    while end < n && !IsBlank(buf[end])
      invariant start <= end <= n
      invariant BlankFree(buf[start..end])
    {
      end := end + 1;
    }
  }

  /** The word at `start`, and where the scan resumes after the blank that ends it. */
  lemma WordAt(buf: array<char>, start: nat, end: nat, n: nat)
    requires start < end <= n < buf.Length && BlankFree(buf[start..end])
    requires end < n ==> IsBlank(buf[end])
    ensures Tokens(buf[start..n]) == [buf[start..end]] + Tokens(buf[if end < n then end + 1 else end..n])
  {
    if end < n {
      assert buf[start..n] == buf[start..end] + ([buf[end]] + buf[end + 1..n]);
      FirstToken(buf[start..n], buf[start..end], buf[end + 1..n]);
    } else {
      FirstToken(buf[start..n], buf[start..end], "");
      assert buf[n..n] == "";
    }
  }

  /** strtok_r(.., " \t", &save) on the string of length n: the token is buf[start..end]. */
  method StrtokR(buf: array<char>, save: nat, n: nat) returns (found: bool, start: nat, end: nat, next: nat)
    requires save <= n < buf.Length
    modifies buf
    ensures save <= next <= n && start <= end <= n && buf[next..n] == old(buf[next..n])
    ensures !found ==> Tokens(old(buf[save..n])) == []
    ensures found ==> save <= start < end <= next
    ensures found ==> Tokens(old(buf[save..n])) == [buf[start..end]] + Tokens(buf[next..n])
  {
    start := SkipBlanks(buf, save, n);
    if start == n {
      return false, start, start, n;
    }
    end := WordEnd(buf, start, n);
    WordAt(buf, start, end, n);
    next := if end < n then end + 1 else end;
    ghost var w, tail := buf[start..end], buf[next..n];
    if end < n {
      buf[end] := NUL;
    }
    found := true;
    assert buf[start..end] == w && buf[next..n] == tail;
  }

  /** One key=value token in buf[start..end]; the '=' is overwritten. */
  method ApplyField(m: Message, buf: array<char>, start: nat, end: nat) returns (m': Message)
    requires start < end < buf.Length
    modifies buf
    ensures m' == ApplyToken(m, old(buf[start..end]))
    ensures buf[end..] == old(buf[end..])
  {
    var eq := start;
    ghost var tok := buf[start..end];
    while eq < end && buf[eq] != '='
      invariant start <= eq <= end
      invariant forall i | 0 <= i < eq - start :: tok[i] != '='
    {
      eq := eq + 1;
    }
    IndexOfIs(tok, '=', eq - start);
    if eq == end {
      return m; // malformed token
    }
    assert tok[..eq - start] == buf[start..eq] && tok[eq - start + 1..] == buf[eq + 1..end];
    buf[eq] := NUL;
    m' := Assign(m, KeyFrom(buf[start..eq]), buf[eq + 1..end]);
  }

  method Strnlen(s: string, max: nat) returns (n: nat)
    ensures n == if IndexOf(s, NUL) < max then IndexOf(s, NUL) else max
  {
    n := 0;
    while n < max && n < |s| && s[n] != NUL
      invariant n <= max && n <= |s|
      invariant forall i | 0 <= i < n :: s[i] != NUL
    {
      n := n + 1;
    }
    if n == |s| || s[n] == NUL {
      IndexOfIs(s, NUL, n);
    }
  }

  lemma ApplyAllCons(m: Message, t: string, rest: seq<string>)
    ensures ApplyAll(m, [t] + rest) == ApplyAll(ApplyToken(m, t), rest)
  {
    ApplyAllConcat(m, [t], rest);
    assert [t][..0] == [];
  }

  lemma ParseTwoTokens(r: string, t: string, rest: seq<string>)
    ensures ParseTokens([]) == None && ParseTokens([r]) == None
    ensures ParseTokens([r] + ([t] + rest)) ==
            if RoleFrom(r) == UnknownRole || TypeFrom(t) == UnknownType then None
            else Some(ApplyAll(Blank(RoleFrom(r), TypeFrom(t)), rest))
  {
    assert ([r] + ([t] + rest))[2..] == rest;
  }

  /** The key=value loop of line_parse. */
  method ParseFields(m0: Message, buf: array<char>, start0: nat, n: nat) returns (m: Message)
    requires start0 <= n < buf.Length
    modifies buf
    ensures m == ApplyAll(m0, Tokens(old(buf[start0..n])))
  {
    m := m0;
    var save := start0;
    ghost var all := ApplyAll(m0, Tokens(buf[start0..n]));
    while true
      invariant save <= n
      invariant all == ApplyAll(m, Tokens(buf[save..n]))
      decreases n - save
    {
      var found, start, end, next := StrtokR(buf, save, n);
      if !found {
        return;
      }
      ghost var rest := buf[next..n];
      ApplyAllCons(m, buf[start..end], Tokens(rest));
      m := ApplyField(m, buf, start, end);
      assert buf[next..n] == buf[end..][next - end..n - end] == rest;
      save := next;
    }
  }

  /** The copy into the scratch buffer. */
  method Memcpy(line: string, n: nat) returns (buf: array<char>)
    requires n < SCRATCH && n <= |line|
    ensures fresh(buf) && buf.Length == SCRATCH && buf[..n] == line[..n]
  {
    buf := new char[SCRATCH];
    var i := 0;
    while i < n
      invariant i <= n && buf[..i] == line[..i]
    {
      buf[i] := line[i];
      i := i + 1;
    }
    buf[n] := NUL;
  }

  method LineParse(line: string) returns (r: Option<Message>)
    ensures r == Parse(line)
  {
    var n := Strnlen(line, SCRATCH - 1);
    if n == 0 || n >= SCRATCH - 1 {
      return None;
    }
    var buf := Memcpy(line, n);
    n := RStripCrlf(buf, n);
    r := ParseBuffer(buf, n);
  }

  /** Role, type and fields of the stripped string of length n. */
  method ParseBuffer(buf: array<char>, n: nat) returns (r: Option<Message>)
    requires n < buf.Length
    modifies buf
    ensures r == ParseTokens(Tokens(old(buf[..n])))
  {
    assert buf[0..n] == buf[..n];
    var found, start, end, next := StrtokR(buf, 0, n);
    if !found {
      return None;
    }
    var role := buf[start..end];
    found, start, end, next := StrtokR(buf, next, n);
    var typ := buf[start..end];
    ParseTwoTokens(role, typ, Tokens(buf[next..n]));
    if !found || RoleFrom(role) == UnknownRole || TypeFrom(typ) == UnknownType {
      return None;
    }
    var m := ParseFields(Blank(RoleFrom(role), TypeFrom(typ)), buf, next, n);
    r := Some(m);
  }
}
