/** The 4096-byte framing buffer, in place. */
module Sessions {
  import opened Text
  import opened Stream

  class Session {
    const buf: array<char>
    var len: nat

    ghost predicate Valid()
      reads this
    {
      buf.Length == CAPACITY && len <= CAPACITY
    }

    ghost function Bytes(): string
      reads this, buf
      requires Valid()
    {
      buf[..len]
    }

    constructor ()
      ensures Valid() && fresh(buf) && Bytes() == ""
    {
      buf := new char[CAPACITY];
      len := 0;
    }

    method Feed(data: string) returns (ok: bool)
      requires Valid()
      modifies this`len, buf
      ensures Valid()
      ensures ok <==> |old(Bytes())| + |data| <= 4096
      ensures Bytes() == if ok then old(Bytes()) + data else old(Bytes())
    {
      if |data| == 0 {
        return true;
      }
      if len + |data| > CAPACITY {
        return false;
      }
      var i := 0;
      while i < |data|
        invariant i <= |data| && len == old(len)
        invariant buf[..len + i] == old(Bytes()) + data[..i]
      {
        buf[len + i] := data[i];
        i := i + 1;
      }
      len := len + |data|;
      ok := true;
    }

    /** 1: a line was popped; 0: none yet; -1: it does not fit `out`. */
    method PopLine(out: array<char>) returns (r: int)
      requires Valid() && out != buf
      modifies this`len, buf, out
      ensures Valid()
      ensures match PopFrom(old(Bytes()), out.Length)
              case NoLine => r == 0 && Bytes() == old(Bytes())
              case PopError => r == -1 && Bytes() == old(Bytes())
              case Line(t, rest) => r == 1 && Bytes() == rest && |t| < out.Length && out[..|t|] == t && out[|t|] == NUL
    {
      if out.Length < 2 {
        return -1;
      }
      ghost var b := Bytes();
      var i := 0;
      while i < len && buf[i] != LF
        invariant i <= len
        invariant forall j | 0 <= j < i :: b[j] != LF
      {
        i := i + 1;
      }
      IndexOfIs(b, LF, i);
      if i == len {
        return 0;
      }
      var n := i + 1;
      if n >= out.Length {
        return -1;
      }
      CopyOut(out, n);
      out[n] := NUL;
      Shift(n);
      r := 1;
    }

    method CopyOut(out: array<char>, n: nat)
      requires Valid() && out != buf && n <= len && n < out.Length
      modifies out
      ensures out[..n] == Bytes()[..n]
    {
      var i := 0;
      while i < n
        invariant i <= n && out[..i] == buf[..i]
      {
        out[i] := buf[i];
        i := i + 1;
      }
    }

    /** memmove of the unread bytes to the front. */
    method Shift(n: nat)
      requires Valid() && n <= len
      modifies this`len, buf
      ensures Valid() && Bytes() == old(Bytes())[n..]
    {
      ghost var b := Bytes();
      var i := 0;
      while i < len - n
        invariant i <= len - n && len == old(len)
        invariant forall j | 0 <= j < i :: buf[j] == b[n + j]
        invariant forall j | i <= j < len :: buf[j] == b[j]
      {
        buf[i] := buf[n + i];
        i := i + 1;
      }
      len := len - n;
    }
  }
}
