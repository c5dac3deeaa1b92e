/** The table of open connections and its idle scan. */
module ConnTable {
  const MAX_CONN := 1024
  const CONN_IDLE_TIMEOUT_MS := 60000

  class Connection {
    const fd: int
    var lastActiveMs: int

    constructor (fd: int, now: int)
      ensures this.fd == fd && lastActiveMs == now
    {
      this.fd := fd;
      lastActiveMs := now;
    }
  }

  predicate Idle(c: Connection, now: int)
    reads c
  {
    now - c.lastActiveMs > CONN_IDLE_TIMEOUT_MS
  }

  predicate Distinct<T(==)>(s: seq<T>) {
    forall i, j | 0 <= i < j < |s| :: s[i] != s[j]
  }

  /** The last element takes the place of element i. */
  function SwapRemoved<T>(s: seq<T>, i: nat): seq<T>
    requires i < |s|
  {
    var n := |s| - 1;
    if i == n then s[..n] else s[..n][i := s[n]]
  }

  lemma MultisetAt<T>(s: seq<T>, i: nat)
    requires i < |s|
    ensures multiset(s) == multiset(s[..i]) + multiset{s[i]} + multiset(s[i + 1..])
  {
    assert s == s[..i] + [s[i]] + s[i + 1..];
  }

  lemma UpdateMultiset<T>(s: seq<T>, i: nat, x: T)
    requires i < |s|
    ensures multiset(s[i := x]) + multiset{s[i]} == multiset(s) + multiset{x}
  {
    MultisetAt(s, i);
    MultisetAt(s[i := x], i);
    assert s[i := x][i + 1..] == s[i + 1..];
  }

  lemma SwapRemovedMultiset<T>(s: seq<T>, i: nat)
    requires i < |s|
    ensures multiset(SwapRemoved(s, i)) + multiset{s[i]} == multiset(s)
  {
    var n := |s| - 1;
    MultisetAt(s, n);
    assert s[n + 1..] == [];
    if i < n {
      UpdateMultiset(s[..n], i, s[n]);
    }
  }

  lemma DistinctMultiset<T>(s: seq<T>)
    ensures Distinct(s) <==> forall x | x in multiset(s) :: multiset(s)[x] == 1
  {
    if Distinct(s) {
      forall x | x in multiset(s)
        ensures multiset(s)[x] == 1
      {
        var i :| 0 <= i < |s| && s[i] == x;
        MultisetAt(s, i);
      }
    }
    if i, j :| 0 <= i < j < |s| && s[i] == s[j] {
      MultisetAt(s, i);
      assert s[i + 1..][j - i - 1] == s[i];
      assert multiset(s)[s[i]] >= 2;
    }
  }

  lemma DistinctParts<T>(a: seq<T>, b: seq<T>, s: seq<T>)
    requires multiset(a) + multiset(b) == multiset(s)
    ensures Distinct(s) ==> Distinct(a) && Distinct(b)
  {
    DistinctMultiset(s);
    DistinctMultiset(a);
    DistinctMultiset(b);
    assert forall x :: multiset(s)[x] == multiset(a)[x] + multiset(b)[x];
    assert forall x :: x in multiset(a) || x in multiset(b) ==> x in multiset(s);
  }

  ghost function IdleSet(s: seq<Connection>, now: int): set<Connection>
    reads s
  {
    set c | c in s && Idle(c, now)
  }

  /** The scan of s0 has reached position i of what is left, s; nothing before i is in `idle`. */
  ghost predicate Scanned<T>(s0: seq<T>, s: seq<T>, i: nat, closed: seq<T>, idle: set<T>) {
    && i <= |s| && multiset(s) + multiset(closed) == multiset(s0)
    && (forall k | 0 <= k < i :: s[k] !in idle) && (forall c | c in closed :: c in idle)
  }

  lemma ScanCloses<T>(s0: seq<T>, s: seq<T>, i: nat, closed: seq<T>, idle: set<T>)
    requires Scanned(s0, s, i, closed, idle) && i < |s| && s[i] in idle
    ensures Scanned(s0, SwapRemoved(s, i), i, closed + [s[i]], idle)
  {
    SwapRemovedMultiset(s, i);
    assert multiset(closed + [s[i]]) == multiset(closed) + multiset{s[i]};
  }

  lemma ScanFrom<T>(s0: seq<T>, s: seq<T>, i: nat, closed: seq<T>, idle: set<T>)
    requires Scanned(s0, s, i, closed, idle) && i < |s|
    ensures s[i] in s0
    ensures s[i] in idle ==> s[i] !in s[..i]
  {
    assert s[i] in multiset(s) && multiset(s) <= multiset(s0);
  }

  lemma ScanEnds<T>(s0: seq<T>, s: seq<T>, closed: seq<T>, idle: set<T>)
    requires Scanned(s0, s, |s|, closed, idle)
    ensures forall c | c in s :: c in s0 && c !in idle
    ensures forall c | c in closed :: c in s0 && c in idle
    ensures Distinct(s0) ==> Distinct(s) && Distinct(closed)
  {
    DistinctParts(s, closed, s0);
    assert forall c :: multiset(s0)[c] == multiset(s)[c] + multiset(closed)[c];
    assert forall c | c in s :: c in multiset(s0);
    assert forall c | c in closed :: c in multiset(s0);
  }

  class Table {
    const slots: array<Connection?>
    var count: nat

    ghost predicate Valid()
      reads this, slots
    {
      slots.Length == MAX_CONN && count <= MAX_CONN && forall i | 0 <= i < count :: slots[i] != null
    }

    ghost function Conns(): (s: seq<Connection>)
      requires Valid()
      reads this, slots
      ensures |s| == count
    {
      seq(count, i requires 0 <= i < count reads this, slots requires Valid() => slots[i])
    }

    constructor ()
      ensures Valid() && Conns() == [] && fresh(slots)
    {
      slots := new Connection?[MAX_CONN](_ => null);
      count := 0;
    }

    /** A connection beyond the table's capacity is silently not tracked. */
    method Register(c: Connection)
      requires Valid()
      modifies this`count, slots
      ensures Valid()
      ensures Conns() == if |old(Conns())| < 1024 then old(Conns()) + [c] else old(Conns())
    {
      if count < MAX_CONN {
        slots[count] := c;
        count := count + 1;
      }
    }

    /** Removes the first entry equal to c, if any, by moving the last one into its place. */
    method Unregister(c: Connection) returns (ghost k: nat)
      requires Valid()
      modifies this`count, slots
      ensures Valid()
      ensures k <= |old(Conns())| && c !in old(Conns())[..k]
      ensures k < |old(Conns())| ==> old(Conns())[k] == c && Conns() == SwapRemoved(old(Conns()), k)
      ensures k == |old(Conns())| ==> Conns() == old(Conns())
    {
      ghost var s := Conns();
      var i := 0;
      while i < count
        invariant 0 <= i <= count && Valid() && Conns() == s && count == |s|
        invariant c !in s[..i]
      {
        if slots[i] == c {
          slots[i] := slots[count - 1];
          count := count - 1;
          return i;
        }
        i := i + 1;
      }
      k := i;
    }

    /** The swap-remove scan is an exact filter: it closes the idle connections and keeps the others. */
    method ScanTimeouts(now: int) returns (closed: seq<Connection>)
      requires Valid()
      modifies this`count, slots
      ensures Valid()
      ensures multiset(Conns()) + multiset(closed) == multiset(old(Conns()))
      ensures forall c | c in Conns() :: now - c.lastActiveMs <= 60000 && !Idle(c, now)
      ensures forall c | c in closed :: now - c.lastActiveMs > 60000 && Idle(c, now)
      ensures Distinct(old(Conns())) ==> Distinct(Conns()) && Distinct(closed)
    {
      closed := [];
      ghost var s0 := Conns();
      ghost var idle := IdleSet(s0, now);
      ghost var s := s0;
      var i := 0;
      while i < count
        invariant 0 <= i <= count && Valid() && s == Conns()
        invariant Scanned(s0, s, i, closed, idle)
        decreases count - i
      {
        var c := slots[i];
        ScanFrom(s0, s, i, closed, idle);
        if Idle(c, now) {
          ScanCloses(s0, s, i, closed, idle);
          ghost var k := Unregister(c);
          assert k == i;
          closed := closed + [c];
          s := SwapRemoved(s, i);
        } else {
          i := i + 1;
        }
      }
      ScanEnds(s0, s, closed, idle);
    }
  }
}
