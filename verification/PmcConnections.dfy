/** The PMC's singly linked list of connections, on the heap. */
module PmcConnections {
  datatype PeerType = PeerUnknown | PeerEqd | PeerSim

  class Conn {
    const fd: int
    var peer: PeerType
    var registered: bool
    var devId: int
    var state: string
    var hasState: bool
    var next: Conn?

    constructor (fd: int)
      ensures this.fd == fd && peer == PeerUnknown && !registered && devId == -1 && !hasState && state == ""
      ensures next == null
    {
      this.fd := fd;
      peer, registered, devId, state, hasState, next := PeerUnknown, false, -1, "", false, null;
    }
  }

  predicate IsEqd(c: Conn)
    reads c
  {
    c.registered && c.peer == PeerEqd
  }

  predicate IsSim(c: Conn, dev: int)
    reads c
  {
    c.registered && c.peer == PeerSim && c.devId == dev
  }

  function Without<T>(s: seq<T>, i: nat): seq<T>
    requires i < |s|
  {
    s[..i] + s[i + 1..]
  }

  lemma WithoutAt<T>(s: seq<T>, i: nat)
    requires i < |s|
    ensures |Without(s, i)| == |s| - 1
    ensures forall j | 0 <= j < |s| - 1 :: Without(s, i)[j] == s[if j < i then j else j + 1]
  {
  }

  /** nodes[k] is the most recently added registered link to equipmentd. */
  predicate NewestEqd(nodes: seq<Conn>, k: nat)
    requires k < |nodes|
    reads nodes
  {
    IsEqd(nodes[k]) && forall j | 0 <= j < k :: !IsEqd(nodes[j])
  }

  ghost function FirstSim(nodes: seq<Conn>, dev: int): (k: nat)
    reads nodes
    ensures k <= |nodes| && (k < |nodes| ==> IsSim(nodes[k], dev))
    ensures forall j | 0 <= j < k :: !IsSim(nodes[j], dev)
  {
    if nodes == [] || IsSim(nodes[0], dev) then 0 else 1 + FirstSim(nodes[1..], dev)
  }

  /** Without its first SIM of the device, the first SIM of a list is the next one behind it. */
  lemma NextSim(was: seq<Conn>, k: nat, dev: int)
    requires k < |was| && forall j | 0 <= j < k :: !IsSim(was[j], dev)
    ensures var n := FirstSim(Without(was, k), dev);
            && n >= k && (forall i | k < i <= n :: !IsSim(was[i], dev))
            && (n < |was| - 1 ==> IsSim(was[n + 1], dev))
  {
    var nodes := Without(was, k);
    var n := FirstSim(nodes, dev);
    WithoutAt(was, k);
    assert forall j | 0 <= j < k && j < |nodes| :: nodes[j] == was[j];
    forall i | k < i <= n
      ensures !IsSim(was[i], dev)
    {
      assert nodes[i - 1] == was[i];
    }
  }

  ghost function FirstEqd(nodes: seq<Conn>): (k: nat)
    reads nodes
    ensures k <= |nodes| && (k < |nodes| ==> NewestEqd(nodes, k))
    ensures k == |nodes| ==> forall c | c in nodes :: !IsEqd(c)
  {
    if nodes == [] || IsEqd(nodes[0]) then 0 else 1 + FirstEqd(nodes[1..])
  }

  class ConnList {
    var head: Conn?
    ghost var nodes: seq<Conn>

    /** Following `next` from `head` visits exactly `nodes`, each once, and ends. */
    ghost predicate Valid()
      reads this, nodes
    {
      && (head == if nodes == [] then null else nodes[0])
      && (forall i {:trigger nodes[i].next} | 0 <= i < |nodes| - 1 :: nodes[i].next == nodes[i + 1])
      && (nodes != [] ==> nodes[|nodes| - 1].next == null)
      && (forall i, j | 0 <= i < j < |nodes| :: nodes[i] != nodes[j])
    }

    constructor ()
      ensures Valid() && nodes == []
    {
      head := null;
      nodes := [];
    }

    method Add(c: Conn)
      requires Valid() && c !in nodes
      modifies this, c`next
      ensures Valid() && nodes == [c] + old(nodes)
    {
      c.next := head;
      head := c;
      ghost var was := nodes;
      nodes := [c] + nodes;
      assert forall i | 1 <= i < |nodes| :: nodes[i] == was[i - 1];
    }

    /** The link that leads to c: `prev.next`, or `head` when prev is null. */
    method LinkTo(c: Conn) returns (found: bool, prev: Conn?, ghost i: nat)
      requires Valid()
      ensures found <==> c in nodes
      ensures found ==> i < |nodes| && nodes[i] == c && prev == if i == 0 then null else nodes[i - 1]
    {
      prev := null;
      var cur := head;
      i := 0;
      while cur != null && cur != c
        invariant 0 <= i <= |nodes|
        invariant cur == if i < |nodes| then nodes[i] else null
        invariant prev == if i == 0 then null else nodes[i - 1]
        invariant c !in nodes[..i]
        decreases |nodes| - i
      {
        prev := cur;
        cur := cur.next;
        i := i + 1;
      }
      assert i == |nodes| ==> nodes[..i] == nodes;
      found := cur != null;
    }

    /** Unlinks exactly c; the order of the others is kept, and c itself is not touched. */
    method Remove(c: Conn)
      requires Valid()
      modifies this, nodes`next
      ensures Valid()
      ensures c !in old(nodes) ==> nodes == old(nodes)
      ensures forall k | 0 <= k < |old(nodes)| && old(nodes)[k] == c :: nodes == Without(old(nodes), k)
      ensures c !in nodes && c.next == old(c.next)
    {
      var found, prev, i := LinkTo(c);
      if found {
        if prev == null {
          head := c.next;
        } else {
          prev.next := c.next;
        }
        WithoutAt(nodes, i);
        nodes := Without(nodes, i);
      }
    }

    /** The position of the most recently added registered link to equipmentd; |nodes| if there is none. */
    ghost function EqdIndex(): (k: nat)
      reads this, nodes
      ensures k <= |nodes| && (k < |nodes| ==> NewestEqd(nodes, k))
      ensures k == |nodes| ==> forall c | c in nodes :: !IsEqd(c)
    {
      FirstEqd(nodes)
    }

    method FindEqd() returns (r: Conn?, ghost k: nat)
      requires Valid()
      ensures r == null <==> forall c | c in nodes :: !IsEqd(c)
      ensures r != null ==> k < |nodes| && nodes[k] == r && NewestEqd(nodes, k)
    {
      r := head;
      k := 0;
      while r != null
        invariant 0 <= k <= |nodes|
        invariant r == if k < |nodes| then nodes[k] else null
        invariant forall j | 0 <= j < k :: !IsEqd(nodes[j])
        decreases |nodes| - k
      {
        if r.registered && r.peer == PeerEqd {
          assert nodes[k] in nodes;
          return;
        }
        r := r.next;
        k := k + 1;
      }
    }

    /** The position of the most recently added registered SIM of a device; |nodes| if there is none. */
    ghost function SimIndex(dev: int): (k: nat)
      reads this, nodes
      ensures k <= |nodes| && (k < |nodes| ==> IsSim(nodes[k], dev))
      ensures forall j | 0 <= j < k :: !IsSim(nodes[j], dev)
    {
      FirstSim(nodes, dev)
    }

    method FindSim(dev: int) returns (r: Conn?)
      requires Valid()
      ensures r == if SimIndex(dev) < |nodes| then nodes[SimIndex(dev)] else null
    {
      r := head;
      ghost var i := 0;
      while r != null
        invariant 0 <= i <= |nodes|
        invariant r == if i < |nodes| then nodes[i] else null
        invariant forall j | 0 <= j < i :: !IsSim(nodes[j], dev)
        decreases |nodes| - i
      {
        if r.registered && r.peer == PeerSim && r.devId == dev {
          return;
        }
        r := r.next;
        i := i + 1;
      }
    }

    /** Removing the SIM that is found, the newest of its device, re-exposes the next older one: what is found
        then is the first SIM of the device behind it, or none. */
    method CloseNewestSim(dev: int) returns (r: Conn?, ghost k: nat)
      requires Valid()
      modifies this, nodes`next
      ensures Valid() && k == old(SimIndex(dev))
      ensures r == null <==> k == |old(nodes)|
      ensures r == null <==> forall c | c in old(nodes) :: !IsSim(c, dev)
      ensures r == null ==> nodes == old(nodes)
      ensures r != null ==> old(nodes)[k] == r && IsSim(r, dev) && nodes == Without(old(nodes), k)
      ensures r != null ==> SimIndex(dev) >= k && forall i | k < i <= SimIndex(dev) :: !IsSim(old(nodes)[i], dev)
      ensures r != null && SimIndex(dev) < |nodes| ==> IsSim(old(nodes)[SimIndex(dev) + 1], dev)
    {
      k := SimIndex(dev);
      r := FindSim(dev);
      if r != null {
        ghost var was := nodes;
        Remove(r);
        assert was[k] == r && nodes == Without(was, k);
        NextSim(was, k, dev);
      } else {
        assert forall c | c in nodes :: exists j | 0 <= j < |nodes| :: nodes[j] == c;
      }
    }
  }
}
