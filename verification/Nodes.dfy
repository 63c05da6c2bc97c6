// Partition nodes and the links of one sibling list.

module Nodes {
  import opened Common
  import opened Geometry
  import opened Layout

  /** A PedPartition.  partList is the head of the logical list and is used by
      the extended partition only. */
  class Partition {
    const ptype: PartType
    var geom: Geom
    var prev: Partition?
    var next: Partition?
    var partList: Partition?

    /** _ped_partition_alloc: a fresh node has null links. */
    constructor (ptype: PartType, geom: Geom)
      ensures this.ptype == ptype && this.geom == geom
      ensures prev == null && next == null && partList == null
    {
      this.ptype := ptype;
      this.geom := geom;
      prev := null;
      next := null;
      partList := null;
    }
  }

  predicate IsUsedNode(p: Partition) {
    !p.ptype.free
  }

  predicate IsActiveNode(p: Partition) {
    p.ptype.IsActive()
  }

  predicate IsNotMetadataNode(p: Partition) {
    !p.ptype.metadata
  }

  ghost function SlotOf(p: Partition): Slot
    reads p`geom
  {
    Slot(p.ptype, p.geom)
  }

  /** The values of a list of nodes. */
  ghost function Slots(s: seq<Partition>): (r: seq<Slot>)
    reads s`geom
    ensures |r| == |s| && forall i :: 0 <= i < |s| ==> r[i] == SlotOf(s[i])
  {
    if s == [] then [] else [SlotOf(s[0])] + Slots(s[1..])
  }

  lemma {:induction false} SlotsConcat(a: seq<Partition>, b: seq<Partition>)
    ensures Slots(a + b) == Slots(a) + Slots(b)
  {
    if a == [] {
      assert a + b == b;
    } else {
      assert (a + b)[1..] == a[1..] + b;
      SlotsConcat(a[1..], b);
    }
  }

  lemma {:induction false} SlotsSplit(s: seq<Partition>, k: nat)
    requires k <= |s|
    ensures Slots(s[..k]) == Slots(s)[..k] && Slots(s[k..]) == Slots(s)[k..]
  {
    var a, b := s[..k], s[k..];
    SlotsConcat(a, b);
    SlotsLength(a);
    assert s == a + b;
    hide Slots;
    PartsOf(Slots(a), Slots(b));
  }

  lemma SlotsLength(s: seq<Partition>)
    ensures |Slots(s)| == |s|
  {
  }

  lemma PartsOf(a: seq<Slot>, b: seq<Slot>)
    ensures (a + b)[..|a|] == a && (a + b)[|a|..] == b
  {
  }

  lemma SlotsWith(s: seq<Partition>, k: nat, x: Partition)
    requires k <= |s|
    ensures Slots(With(s, k, x)) == With(Slots(s), k, SlotOf(x))
  {
    hide Slots;
    SlotsSplit(s, k);
    SlotsConcat(s[..k] + [x], s[k..]);
    SlotsConcat(s[..k], [x]);
    assert Slots([x]) == [SlotOf(x)];
  }

  lemma SlotsWithout(s: seq<Partition>, k: nat)
    requires k < |s|
    ensures Slots(Without(s, k)) == Without(Slots(s), k)
  {
    hide Slots;
    SlotsSplit(s, k);
    SlotsSplit(s, k + 1);
    SlotsConcat(s[..k], s[k + 1..]);
  }

  lemma WithMembers(s: seq<Partition>, k: nat, x: Partition)
    requires k <= |s|
    ensures forall p | p in With(s, k, x) :: p in s || p == x
    ensures x in With(s, k, x) && forall p | p in s :: p in With(s, k, x)
  {
    assert With(s, k, x)[k] == x;
    assert s == s[..k] + s[k..];
  }

  lemma {:induction false} SlotsFilter(s: seq<Partition>)
    ensures Slots(Filter(IsUsedNode, s)) == Filter(IsUsed, Slots(s))
  {
    if s != [] {
      SlotsFilter(s[1..]);
      assert Slots(s)[1..] == Slots(s[1..]);
      SlotsConcat(if IsUsedNode(s[0]) then [s[0]] else [], Filter(IsUsedNode, s[1..]));
    }
  }

  ghost function Head(s: seq<Partition>): Partition? {
    if s == [] then null else s[0]
  }

  ghost function Index(s: seq<Partition>, p: Partition): (k: nat)
    requires p in s
    ensures k < |s| && s[k] == p
    ensures forall i :: 0 <= i < k ==> s[i] != p
  {
    if s[0] == p then 0 else 1 + Index(s[1..], p)
  }

  ghost function Minus(s: seq<Partition>, p: Partition): seq<Partition>
    requires p in s
  {
    Without(s, Index(s, p))
  }

  lemma MinusMembers(s: seq<Partition>, part: Partition)
    requires part in s
    ensures forall i | 0 <= i < |Minus(s, part)| :: Minus(s, part)[i] in s
    ensures forall p | p in Minus(s, part) :: p in s
  {
  }

  /** The nodes of s are distinct, and prev and next lead along s. */
  ghost predicate Links(s: seq<Partition>)
    reads s`prev, s`next
  {
    && (forall i, j :: 0 <= i < j < |s| ==> s[i] != s[j])
    && (forall i {:trigger s[i].prev} :: 0 <= i < |s| ==> s[i].prev == (if i == 0 then null else s[i - 1]))
    && (forall i {:trigger s[i].next} :: 0 <= i < |s| ==> s[i].next == (if i + 1 == |s| then null else s[i + 1]))
  }

  lemma IndexAt(s: seq<Partition>, k: nat)
    requires Links(s) && k < |s|
    ensures Index(s, s[k]) == k
  {
  }

  /** Slots depends on geometries only. */
  twostate lemma SlotsKept(s: seq<Partition>)
    requires forall i | 0 <= i < |s| :: s[i].geom == old(s[i].geom)
    ensures Slots(s) == old(Slots(s))
  {
  }

  twostate lemma LinksKept(s: seq<Partition>)
    requires old(Links(s))
    requires forall p | p in s :: p.prev == old(p.prev) && p.next == old(p.next)
    ensures Links(s)
  {
    assert forall i | 0 <= i < |s| :: s[i] in s;
  }

  /** The neighbour writes of _disk_raw_insert_before. */
  method LinkBefore(ghost s: seq<Partition>, loc: Partition, part: Partition)
    requires Links(s) && part !in s && loc in s
    modifies s`prev, s`next, part`prev, part`next
    ensures Links(With(s, Index(s, loc), part))
    ensures part.prev == null <==> Index(s, loc) == 0
  {
    ghost var k := Index(s, loc);
    hide Index;
    ghost var r := With(s, k, part);
    assert forall i :: 0 <= i < |r| ==> r[i] == if i < k then s[i] else if i == k then part else s[i - 1];
    assert s[k].prev == loc.prev;
    part.prev := loc.prev;
    part.next := loc;
    if part.prev != null {
      part.prev.next := part;
    }
    loc.prev := part;
  }

  /** The neighbour writes of _disk_raw_insert_after. */
  method LinkAfter(ghost s: seq<Partition>, loc: Partition, part: Partition)
    requires Links(s) && part !in s && loc in s
    modifies s`prev, s`next, part`prev, part`next
    ensures Links(With(s, Index(s, loc) + 1, part))
  {
    ghost var k := Index(s, loc);
    assert s[k].next == loc.next;
    part.prev := loc;
    part.next := loc.next;
    if loc.next != null {
      loc.next.prev := part;
    }
    loc.next := part;
  }

  /** The neighbour writes of _disk_raw_remove; the links of part go stale. */
  method Unlink(ghost s: seq<Partition>, part: Partition)
    requires Links(s) && part in s
    modifies s`prev, s`next
    ensures Links(Minus(s, part))
    ensures part.prev == old(part.prev) && part.next == old(part.next)
    ensures Head(Minus(s, part)) == if part.prev == null then part.next else s[0]
  {
    ghost var k, r := Index(s, part), Minus(s, part);
    assert k + 1 < |s| ==> s[k + 1] == part.next;
    assert s[k].prev == part.prev && s[k].next == part.next;
    assert (forall i :: 0 <= i < k ==> r[i] == s[i]) && (forall i :: k <= i < |r| ==> r[i] == s[i + 1]);
    if part.prev != null {
      part.prev.next := part.next;
      if part.next != null {
        part.next.prev := part.prev;
      }
    } else {
      if part.next != null {
        part.next.prev := null;
      }
    }
    forall i | 0 <= i < |r|
      ensures r[i].prev == (if i == 0 then null else r[i - 1])
      ensures r[i].next == if i + 1 == |r| then null else r[i + 1]
    {
      var j := if i < k then i else i + 1;
      assert r[i] == s[j] && s[j].prev == (if i == 0 then null else if i == k then s[k - 1] else s[j - 1]);
    }
  }
}
