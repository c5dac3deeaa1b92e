/** Decimal conversion: the `%u`, `%d`, `%.2f` directions and `strtoul`, `strtol`, `strtod`. */
module Decimal {
  import opened Ints
  import opened Text

  predicate IsDigit(c: char) {
    '0' <= c <= '9'
  }

  predicate AllDigits(s: string) {
    forall i | 0 <= i < |s| :: IsDigit(s[i])
  }

  function DigitChar(d: nat): (c: char)
    requires d < 10
    ensures IsDigit(c) && DigitValue(c) == d
  {
    '0' + d as char
  }

  function DigitValue(c: char): nat
    requires IsDigit(c)
  {
    (c - '0') as nat
  }

  /** `%u`. */
  function Unsigned(n: nat): (s: string)
    ensures s != "" && AllDigits(s)
  {
    if n < 10 then [DigitChar(n)] else Unsigned(n / 10) + [DigitChar(n % 10)]
  }

  /** `%d`. */
  function Signed(n: int): string {
    if n < 0 then "-" + Unsigned(-n) else Unsigned(n)
  }

  /** `%.2f` of a value given in hundredths. */
  function Fixed2(h: int): string {
    var a := if h < 0 then -h else h;
    (if h < 0 then "-" else "") + (Unsigned(a / 100) + ("." + [DigitChar(a / 10 % 10), DigitChar(a % 10)]))
  }

  function Value(s: string): nat
    requires AllDigits(s)
  {
    if s == "" then 0 else 10 * Value(s[..|s| - 1]) + DigitValue(s[|s| - 1])
  }

  lemma ValueOfUnsigned(n: nat)
    ensures Value(Unsigned(n)) == n
  {
    if n >= 10 {
      var s := Unsigned(n);
      assert s[..|s| - 1] == Unsigned(n / 10);
      ValueOfUnsigned(n / 10);
    } else {
      assert Unsigned(n)[..0] == "";
    }
  }

  function Pow10(k: nat): nat {
    if k == 0 then 1 else 10 * Pow10(k - 1)
  }

  lemma UnsignedLength(n: nat, k: nat)
    requires 0 < k && n < Pow10(k)
    ensures |Unsigned(n)| <= k
  {
    if n >= 10 {
      UnsignedLength(n / 10, k - 1);
    }
  }

  lemma UnsignedWidth(n: nat)
    requires n < TWO_32
    ensures |Unsigned(n)| <= 10
  {
    assert Pow10(5) == 100000;
    assert Pow10(10) == 10000000000;
    UnsignedLength(n, 10);
  }

  // ----- reading

  predicate IsSpace(c: char) {
    c == ' ' || c == '\t' || c == LF || c == CR || c == 11 as char || c == 12 as char
  }

  function DropSpace(s: string): string {
    if s != "" && IsSpace(s[0]) then DropSpace(s[1..]) else s
  }

  /** Length of the leading run of digits. */
  function DigitRun(s: string): (n: nat)
    ensures n <= |s| && AllDigits(s[..n])
    ensures n == |s| || !IsDigit(s[n])
  {
    if s == "" || !IsDigit(s[0]) then 0
    else
      assert s[..1 + DigitRun(s[1..])] == [s[0]] + s[1..][..DigitRun(s[1..])];
      1 + DigitRun(s[1..])
  }

  datatype Number = Number(negative: bool, digits: string, rest: string)

  /** Leading white space, optional sign, digits: the common part of strtoul, strtol and strtod. */
  function ScanNumber(s: string): (r: Number)
    ensures AllDigits(r.digits)
  {
    var t := DropSpace(s);
    var signed := t != "" && (t[0] == '-' || t[0] == '+');
    var u := if signed then t[1..] else t;
    var n := DigitRun(u);
    Number(signed && t[0] == '-', u[..n], u[n..])
  }

  /** `strtoul(s, NULL, 10)`: saturates at ULONG_MAX, negates modulo 2^64. */
  function StrToUlong(s: string): nat {
    var r := ScanNumber(s);
    var v := Value(r.digits);
    if v >= TWO_64 then TWO_64 - 1 else if r.negative then (TWO_64 - v) % TWO_64 else v
  }

  /** `strtol(s, NULL, 10)`: clamps to the 64-bit range. */
  function StrToLong(s: string): int {
    var r := ScanNumber(s);
    var v: int := Value(r.digits);
    if r.negative then (if v > TWO_63 then -TWO_63 else -v)
    else if v >= TWO_63 then TWO_63 - 1 else v
  }

  /** `strtod` cut to hundredths: digits past the second decimal are dropped. */
  function StrToHundredths(s: string): int {
    var r := ScanNumber(s);
    var f := if r.rest != "" && r.rest[0] == '.' then r.rest[1..] else "";
    var tenths := if |f| > 0 && IsDigit(f[0]) then DigitValue(f[0]) else 0;
    var cents := if |f| > 1 && IsDigit(f[0]) && IsDigit(f[1]) then DigitValue(f[1]) else 0;
    var v := 100 * Value(r.digits) + 10 * tenths + cents;
    if r.negative then -v else v
  }

  lemma ScanDigits(d: string, rest: string)
    requires d != "" && AllDigits(d)
    requires rest == "" || !IsDigit(rest[0])
    ensures ScanNumber(d + rest) == Number(false, d, rest)
    ensures ScanNumber("-" + (d + rest)) == Number(true, d, rest)
  {
    var s := d + rest;
    assert s[0] == d[0];
    assert forall i | 0 <= i < |d| :: s[i] == d[i] && IsDigit(s[i]);
    assert rest != "" ==> s[|d|] == rest[0];
    var n := DigitRun(s);
    assert s[..n] == d && s[n..] == rest;
    assert ("-" + s)[1..] == s;
  }

  lemma UnsignedReads(n: nat)
    requires n < TWO_32
    ensures ToU32(StrToUlong(Unsigned(n))) == n
  {
    ScanDigits(Unsigned(n), "");
    assert Unsigned(n) + "" == Unsigned(n);
    ValueOfUnsigned(n);
  }

  lemma SignedScan(n: int)
    ensures ScanNumber(Signed(n)) == Number(n < 0, Unsigned(if n < 0 then -n else n), "")
  {
    var u := Unsigned(if n < 0 then -n else n);
    ScanDigits(u, "");
    assert u + "" == u;
  }

  lemma CastI32(n: i32)
    ensures ToI32(n) == n
  {
  }

  lemma LongReads(n: int)
    requires -TWO_31 <= n < TWO_31
    ensures StrToLong(Signed(n)) == n
  {
    var a: nat := if n < 0 then -n else n;
    SignedScan(n);
    ValueOfUnsigned(a);
    var r := ScanNumber(Signed(n));
    assert Value(r.digits) == a;
  }

  lemma SignedReads(n: i32)
    ensures ToI32(StrToLong(Signed(n))) == n
  {
    LongReads(n);
    CastI32(n);
  }

  lemma DigitsOfHundredths(a: nat)
    ensures a == 100 * (a / 100) + 10 * (a / 10 % 10) + a % 10
  {
  }

  lemma Fixed2Scan(h: int)
    ensures var a := if h < 0 then -h else h;
            ScanNumber(Fixed2(h)) == Number(h < 0, Unsigned(a / 100), "." + [DigitChar(a / 10 % 10), DigitChar(a % 10)])
  {
    var a := if h < 0 then -h else h;
    var p := "." + [DigitChar(a / 10 % 10), DigitChar(a % 10)];
    ScanDigits(Unsigned(a / 100), p);
    assert "" + (Unsigned(a / 100) + p) == Unsigned(a / 100) + p;
  }

  lemma Fixed2Reads(h: int)
    ensures StrToHundredths(Fixed2(h)) == h
  {
    var a := if h < 0 then -h else h;
    var f := [DigitChar(a / 10 % 10), DigitChar(a % 10)];
    Fixed2Scan(h);
    ValueOfUnsigned(a / 100);
    assert ("." + f)[1..] == f;
    assert "."[0] == '.' && ("." + f)[0] == '.';
    DigitsOfHundredths(a);
  }

  /** Printed numbers are single, blank-free tokens that end in a digit. */
  lemma NumberText(n: int)
    ensures LfFree(Signed(n)) && LfFree(Fixed2(n))
    ensures BlankFree(Signed(n)) && NulFree(Signed(n)) && Signed(n) != "" && !IsEol(Signed(n)[|Signed(n)| - 1])
    ensures BlankFree(Fixed2(n)) && NulFree(Fixed2(n)) && Fixed2(n) != "" && !IsEol(Fixed2(n)[|Fixed2(n)| - 1])
  {
    var u := Unsigned(if n < 0 then -n else n);
    assert Signed(n)[|Signed(n)| - 1] == u[|u| - 1];
  }
}
