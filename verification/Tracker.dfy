/** The table of requests that wait for a controller's response. */
module Tracker {
  import opened Wrappers
  import opened Ints
  import opened Messages

  const SLOTS := 16
  const REQUEST_TIMEOUT_MS := 10000

  datatype Pending = Pending(clientFd: int, seqNo: u32, dev: u32, typ: MsgType, fromScheduler: bool, createdMs: int)

  /** A slot with its `valid` flag. */
  type Slot = Option<Pending>

  function EmptyTable(): (s: seq<Slot>)
    ensures |s| == SLOTS && forall i | 0 <= i < SLOTS :: s[i] == None
  {
    seq(SLOTS, _ => None)
  }

  const ZERO := Pending(0, 0, 0, Ping, false, 0)

  function FirstFree(s: seq<Slot>): (i: nat)
    ensures i <= |s| && (forall j | 0 <= j < i :: s[j].Some?)
    ensures i < |s| ==> s[i].None?
  {
    if s == [] || s[0].None? then 0 else 1 + FirstFree(s[1..])
  }

  predicate HasKey(p: Slot, seqNo: u32, dev: u32) {
    p.Some? && p.value.seqNo == seqNo && p.value.dev == dev
  }

  function FirstMatch(s: seq<Slot>, seqNo: u32, dev: u32): (i: nat)
    ensures i <= |s| && (forall j | 0 <= j < i :: !HasKey(s[j], seqNo, dev))
    ensures i < |s| ==> HasKey(s[i], seqNo, dev)
  {
    if s == [] || HasKey(s[0], seqNo, dev) then 0 else 1 + FirstMatch(s[1..], seqNo, dev)
  }

  predicate Expired(p: Slot, now: int) {
    p.Some? && now - p.value.createdMs > REQUEST_TIMEOUT_MS
  }

  /** The table after a sweep. */
  function Swept(s: seq<Slot>, now: int): seq<Slot> {
    seq(|s|, i requires 0 <= i < |s| => Kept(s[i], now))
  }

  /** What a sweep drops. */
  function Dropped(s: seq<Slot>, now: int): seq<Slot> {
    seq(|s|, i requires 0 <= i < |s| => Lost(s[i], now))
  }

  predicate AnyLive(s: seq<Slot>) {
    exists i | 0 <= i < |s| :: s[i].Some?
  }

  function One(p: Slot): multiset<Pending> {
    match p
    case None => multiset{}
    case Some(v) => multiset{v}
  }

  /** The live entries. */
  function Live(s: seq<Slot>): multiset<Pending> {
    if s == [] then multiset{} else One(s[0]) + Live(s[1..])
  }

  lemma Assoc(a: multiset<Pending>, b: multiset<Pending>, c: multiset<Pending>)
    ensures (a + b) + c == a + (b + c)
  {
  }

  lemma Interleave(a: multiset<Pending>, b: multiset<Pending>, c: multiset<Pending>, d: multiset<Pending>)
    ensures (a + b) + (c + d) == (a + c) + (b + d)
  {
  }

  lemma LiveCons(s: seq<Slot>, h: Slot, r: seq<Slot>)
    requires s == [h] + r
    ensures Live(s) == One(h) + Live(r)
  {
    assert s[1..] == r;
  }

  lemma {:induction false} LiveUpdate(s: seq<Slot>, i: nat, v: Slot)
    requires i < |s|
    ensures Live(s[i := v]) + One(s[i]) == Live(s) + One(v)
  {
    var h, r := s[0], s[1..];
    LiveCons(s, h, r);
    if i == 0 {
      LiveCons(s[i := v], v, r);
    } else {
      var r' := r[i - 1 := v];
      LiveCons(s[i := v], h, r');
      LiveUpdate(r, i - 1, v);
      Assoc(One(h), Live(r'), One(s[i]));
      Assoc(One(h), Live(r), One(v));
    }
  }

  lemma {:induction false} LiveMember(s: seq<Slot>, p: Pending)
    ensures p in Live(s) <==> Some(p) in s
  {
    if s != [] {
      LiveMember(s[1..], p);
      assert s == [s[0]] + s[1..];
    }
  }

  function Kept(p: Slot, now: int): Slot {
    if Expired(p, now) then None else p
  }

  function Lost(p: Slot, now: int): Slot {
    if Expired(p, now) then p else None
  }

  lemma {:induction false} SweepSplits(s: seq<Slot>, now: int)
    ensures Live(Swept(s, now)) + Live(Dropped(s, now)) == Live(s)
  {
    if s != [] {
      var h, r := s[0], s[1..];
      assert s == [h] + r;
      assert Swept(s, now) == [Kept(h, now)] + Swept(r, now);
      assert Dropped(s, now) == [Lost(h, now)] + Dropped(r, now);
      SweepSplits(r, now);
      SplitStep(s, h, r, Swept(s, now), Kept(h, now), Swept(r, now), Dropped(s, now), Lost(h, now), Dropped(r, now));
    }
  }

  lemma SplitStep(s: seq<Slot>, h: Slot, r: seq<Slot>, a: seq<Slot>, ah: Slot, ar: seq<Slot>,
                  b: seq<Slot>, bh: Slot, br: seq<Slot>)
    requires s == [h] + r && a == [ah] + ar && b == [bh] + br
    requires One(ah) + One(bh) == One(h) && Live(ar) + Live(br) == Live(r)
    ensures Live(a) + Live(b) == Live(s)
  {
    LiveCons(s, h, r);
    LiveCons(a, ah, ar);
    LiveCons(b, bh, br);
    Interleave(One(ah), Live(ar), One(bh), Live(br));
  }

  lemma DroppedAge(s: seq<Slot>, now: int, p: Pending)
    requires p in Live(Dropped(s, now))
    ensures now - p.createdMs > 10000
  {
    var t := Dropped(s, now);
    LiveMember(t, p);
    var i :| 0 <= i < |t| && t[i] == Some(p);
    assert t[i] == Lost(s[i], now);
  }

  lemma SweptAge(s: seq<Slot>, now: int, p: Pending)
    requires p in Live(Swept(s, now))
    ensures now - p.createdMs <= 10000
  {
    var t := Swept(s, now);
    LiveMember(t, p);
    var i :| 0 <= i < |t| && t[i] == Some(p);
    assert t[i] == Kept(s[i], now);
  }

  /** A sweep drops exactly the expired entries. */
  lemma LiveSwept(s: seq<Slot>, now: int)
    ensures Live(Swept(s, now)) + Live(Dropped(s, now)) == Live(s)
    ensures forall p | p in Live(Dropped(s, now)) :: now - p.createdMs > 10000
    ensures forall p | p in Live(Swept(s, now)) :: now - p.createdMs <= 10000
  {
    SweepSplits(s, now);
    forall p | p in Live(Dropped(s, now))
      ensures now - p.createdMs > 10000
    {
      DroppedAge(s, now, p);
    }
    forall p | p in Live(Swept(s, now))
      ensures now - p.createdMs <= 10000
    {
      SweptAge(s, now, p);
    }
  }

  lemma NoneLive(s: seq<Slot>)
    ensures AnyLive(s) <==> Live(s) != multiset{}
    ensures !AnyLive(s) && |s| > 0 ==> FirstFree(s) == 0
  {
    if AnyLive(s) {
      var i :| 0 <= i < |s| && s[i].Some?;
      LiveMember(s, s[i].value);
    } else if Live(s) != multiset{} {
      var p :| p in Live(s);
      LiveMember(s, p);
    }
  }

  class RequestTracker {
    const items: array<Slot>

    ghost predicate Valid()
    {
      items.Length == SLOTS
    }

    ghost function Slots(): seq<Slot>
      reads items
    {
      items[..]
    }

    constructor ()
      ensures Valid() && fresh(items) && Slots() == EmptyTable()
    {
      items := new Slot[SLOTS](_ => None);
    }

    /** A slot index, marked valid and zeroed; -1 when the table is full. */
    method Alloc() returns (i: int)
      requires Valid()
      modifies items
      ensures var k := FirstFree(old(Slots()));
              if k == SLOTS then i == -1 && Slots() == old(Slots())
              else i == k && Slots() == old(Slots())[k := Some(ZERO)]
    {
      ghost var s := Slots();
      i := 0;
      while i < SLOTS
        invariant 0 <= i <= SLOTS && Slots() == s
        invariant forall j | 0 <= j < i :: s[j].Some?
      {
        if items[i].None? {
          items[i] := Some(ZERO);
          assert Slots() == s[i := Some(ZERO)];
          return;
        }
        i := i + 1;
      }
      i := -1;
    }

    method Find(seqNo: u32, dev: u32) returns (i: int)
      requires Valid()
      ensures var k := FirstMatch(Slots(), seqNo, dev); i == if k == SLOTS then -1 else k
    {
      i := 0;
      while i < SLOTS
        invariant 0 <= i <= SLOTS
        invariant forall j | 0 <= j < i :: !HasKey(items[j], seqNo, dev)
      {
        if HasKey(items[i], seqNo, dev) {
          return;
        }
        i := i + 1;
      }
      i := -1;
    }

    method Fill(i: nat, p: Pending)
      requires Valid() && i < SLOTS
      modifies items
      ensures Slots() == old(Slots())[i := Some(p)]
    {
      items[i] := Some(p);
    }

    method Remove(i: nat)
      requires Valid() && i < SLOTS
      modifies items
      ensures Slots() == old(Slots())[i := None]
    {
      items[i] := None;
    }

    method SweepTimeouts(now: int)
      requires Valid()
      modifies items
      ensures Slots() == Swept(old(Slots()), now)
    {
      ghost var s := Slots();
      var i := 0;
      while i < SLOTS
        invariant 0 <= i <= SLOTS
        invariant forall j | 0 <= j < i :: items[j] == Swept(s, now)[j]
        invariant forall j | i <= j < SLOTS :: items[j] == s[j]
      {
        if Expired(items[i], now) {
          items[i] := None;
        }
        i := i + 1;
      }
    }

    method HasPending() returns (b: bool)
      requires Valid()
      ensures b <==> AnyLive(Slots())
    {
      var i := 0;
      while i < SLOTS
        invariant 0 <= i <= SLOTS
        invariant forall j | 0 <= j < i :: items[j].None?
      {
        if items[i].Some? {
          assert Slots()[i].Some?;
          return true;
        }
        i := i + 1;
      }
      return false;
    }
  }
}
