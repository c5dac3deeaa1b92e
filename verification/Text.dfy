/** Option, used for the `has_x` / `x` pairs and for the -1 returns of the C code. */
module Wrappers {
  datatype Option<+T> = None | Some(value: T)
}

/** Fixed-width integers of the C code. */
module Ints {
  const TWO_31 := 0x8000_0000
  const TWO_32 := 0x1_0000_0000
  const TWO_63 := 0x8000_0000_0000_0000
  const TWO_64 := 0x1_0000_0000_0000_0000

  type u32 = x: int | 0 <= x < 0x1_0000_0000
  type i32 = x: int | -0x8000_0000 <= x < 0x8000_0000

  /** The C cast to `uint32_t`. */
  function ToU32(x: int): u32 {
    x % TWO_32
  }

  /** The C cast of a `long` to a 32-bit signed integer (wraps, two's complement). */
  function ToI32(x: int): i32 {
    (x + TWO_31) % TWO_32 - TWO_31
  }
}

/** C string helpers: NUL termination, trailing CR/LF, blanks and tokens. */
module Text {
  const NUL := 0 as char
  const LF := '\n'
  const CR := '\r'

  predicate IsBlank(c: char) {
    c == ' ' || c == '\t'
  }

  predicate IsEol(c: char) {
    c == LF || c == CR
  }

  predicate BlankFree(s: string) {
    forall i | 0 <= i < |s| :: !IsBlank(s[i])
  }

  predicate NulFree(s: string) {
    forall i | 0 <= i < |s| :: s[i] != NUL
  }

  predicate LfFree(s: string) {
    forall i | 0 <= i < |s| :: s[i] != LF
  }

  /** Position of the first c in s, or |s|: `strchr`, `strnlen`, the newline scan. */
  function IndexOf(s: string, c: char): (n: nat)
    ensures n <= |s|
    ensures forall i | 0 <= i < n :: s[i] != c
    ensures n < |s| ==> s[n] == c
  {
    if s == "" || s[0] == c then 0 else 1 + IndexOf(s[1..], c)
  }

  /** IndexOf is the only position with its contract. */
  lemma IndexOfIs(s: string, c: char, n: nat)
    requires n <= |s|
    requires forall i | 0 <= i < n :: s[i] != c
    requires n < |s| ==> s[n] == c
    ensures IndexOf(s, c) == n
  {
    assert n < |s| ==> s[n] == c;
    var k := IndexOf(s, c);
    assert k < |s| ==> s[k] == c;
  }

  /** The C string stored in a byte sequence: everything before the first NUL. */
  function CString(s: string): string {
    s[..IndexOf(s, NUL)]
  }

  function Take(s: string, n: nat): string {
    if |s| <= n then s else s[..n]
  }

  // ----- trailing CR / LF

  function RStrip(s: string): (r: string)
    ensures r <= s
    ensures r == "" || !IsEol(r[|r| - 1])
    ensures forall i | |r| <= i < |s| :: IsEol(s[i])
  {
    if s == "" || !IsEol(s[|s| - 1]) then s else RStrip(s[..|s| - 1])
  }

  /** RStrip is the only prefix with its contract. */
  lemma RStripIs(s: string, r: string)
    requires r <= s
    requires r == "" || !IsEol(r[|r| - 1])
    requires forall i | |r| <= i < |s| :: IsEol(s[i])
    ensures RStrip(s) == r
  {
    var q := RStrip(s);
    assert |q| < |r| ==> IsEol(s[|r| - 1]);
    assert |r| < |q| ==> IsEol(s[|q| - 1]);
  }

  lemma RStripConcat(p: string, v: string)
    requires p != "" && !IsEol(p[|p| - 1])
    ensures RStrip(p + v) == p + RStrip(v)
  {
    var r := p + RStrip(v);
    forall i | |r| <= i < |p + v|
      ensures IsEol((p + v)[i])
    {
      assert (p + v)[i] == v[i - |p|];
    }
    RStripIs(p + v, r);
  }

  lemma RStripNewline(s: string)
    ensures RStrip(s + "\n") == RStrip(s)
  {
    assert (s + "\n")[..|s|] == s;
  }

  // ----- tokens separated by blanks

  /** Length of the leading run of non-blanks. */
  function Span(s: string): (n: nat)
    ensures n <= |s| && BlankFree(s[..n])
    ensures n == |s| || IsBlank(s[n])
  {
    if s == "" || IsBlank(s[0]) then 0
    else
      assert s[..1 + Span(s[1..])] == [s[0]] + s[1..][..Span(s[1..])];
      1 + Span(s[1..])
  }

  /** What repeated `strtok_r(.., " \t", ..)` yields. */
  function Tokens(s: string): (ts: seq<string>)
    ensures forall t | t in ts :: t != "" && BlankFree(t)
    decreases |s|
  {
    if s == "" then []
    else if IsBlank(s[0]) then Tokens(s[1..])
    else [s[..Span(s)]] + Tokens(s[Span(s)..])
  }

  lemma SpanOf(w: string, rest: string)
    requires BlankFree(w)
    requires rest == "" || IsBlank(rest[0])
    ensures Span(w + rest) == |w|
  {
    var s := w + rest;
    assert BlankFree(s[..|w|]) by {
      assert s[..|w|] == w;
    }
    assert forall i | 0 <= i < |w| :: !IsBlank(s[i]) by {
      assert forall i | 0 <= i < |w| :: s[i] == w[i];
    }
    assert rest != "" ==> s[|w|] == rest[0];
    var n := Span(s);
  }

  /** Tokenizing is compositional at a blank. */
  lemma {:induction false} TokensConcat(a: string, b: string)
    requires b == "" || IsBlank(b[0])
    ensures Tokens(a + b) == Tokens(a) + Tokens(b)
    decreases |a|
  {
    if a == "" {
      assert a + b == b;
    } else if IsBlank(a[0]) {
      assert (a + b)[1..] == a[1..] + b;
      TokensConcat(a[1..], b);
    } else {
      var n := Span(a);
      var w, rest := a[..n], a[n..];
      assert a + b == w + (rest + b);
      SpanOf(w, rest + b);
      assert (a + b)[..n] == w && (a + b)[n..] == rest + b;
      TokensConcat(rest, b);
      assert [w] + (Tokens(rest) + Tokens(b)) == ([w] + Tokens(rest)) + Tokens(b);
    }
  }

  lemma TokensOfWord(w: string)
    requires w != "" && BlankFree(w)
    ensures Tokens(w) == [w]
    ensures Tokens(" " + w) == [w]
  {
    SpanOf(w, "");
    assert w + "" == w;
    assert w[..|w|] == w && w[|w|..] == "";
    assert (" " + w)[1..] == w;
  }

  /** Appending " word" appends one token. */
  lemma TokensSnoc(s: string, w: string)
    requires w != "" && BlankFree(w)
    ensures Tokens(s + (" " + w)) == Tokens(s) + [w]
  {
    TokensConcat(s, " " + w);
    TokensOfWord(w);
  }
}
