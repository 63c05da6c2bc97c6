// The placeholders a failing set_partition_geom leaves on a disk.

module Placeholders {
  import opened Common
  import opened Geometry
  import opened Layout
  import opened Placement
  import opened Nodes
  import opened Disks
  import opened Traversal
  import opened FreeSpace
  import opened Edits
  import opened Copying
  import opened Caveats

  /** A used slot is found by the number of used slots in front of it. */
  lemma SamePlace(f: seq<Slot>, i: nat, j: nat)
    requires i < |f| && j < |f| && IsUsed(f[i]) && IsUsed(f[j])
    requires |Filter(IsUsed, f[..i])| == |Filter(IsUsed, f[..j])|
    ensures i == j
  {
    var a, b := if i < j then i else j, if i < j then j else i;
    if a < b {
      hide Filter;
      assert f[..b] == f[..a] + [f[a]] + f[a + 1..b];
      FilterSnoc(IsUsed, f[..a], f[a]);
      FilterConcat(IsUsed, f[..a] + [f[a]], f[a + 1..b]);
    }
  }

  lemma PlaceInFill(r: seq<Slot>, c: nat, last: int, hi: int, logical: bool)
    requires c < |r| && forall x :: x in r ==> IsUsed(x)
    ensures var p, f := FillPos(r, c, last, logical), Fill(r, last, hi, logical);
      p < |f| && f[p] == r[c] && |Filter(IsUsed, f[..p])| == c
  {
    hide Filter, Fill;
    FillAt(r, c, last, hi, logical);
    var gap := GapBefore(LastOf(r, c, last), r[c].geom.start, logical);
    FrontUsed(r, c, last, logical);
    FilterConcat(IsUsed, FillFront(r, c, last, logical), gap);
    FilterNone(IsUsed, gap);
  }

  /** How many used nodes stand in front of part. */
  lemma PlaceInList(s: seq<Partition>, part: Partition)
    requires Distinct(s) && part in Filter(IsUsedNode, s)
    ensures part in s && |Filter(IsUsed, Slots(s)[..Index(s, part)])| == Index(Filter(IsUsedNode, s), part)
  {
    hide Filter, Slots, Index;
    var j := Index(s, part);
    FilterDistinct(IsUsedNode, s);
    FilterPoint(s, j);
    SlotsSplit(s, j);
    SlotsFilter(s[..j]);
  }

  /** The used slots of a table are those of its nodes. */
  lemma CoreUsed(d: Disk)
    ensures AllUsed(d.CoreOf())
  {
    hide Slots;
    UsedSlots(CoreList(d, false));
    UsedSlots(CoreList(d, true));
  }

  lemma UsedSlots(s: seq<Partition>)
    requires forall p | p in s :: IsUsedNode(p)
    ensures forall x :: x in Slots(s) ==> IsUsed(x)
  {
    forall x | x in Slots(s)
      ensures IsUsed(x)
    {
      var i :| 0 <= i < |Slots(s)| && Slots(s)[i] == x;
      assert s[i] in s;
    }
  }

  /** The list of part, filled with part at g; r is that list. */
  lemma FilledAt(t: Table, logical: bool, k: nat, g: Geom)
    requires Sound(t) && k < |t.Siblings(logical)| && (logical ==> t.Siblings(logical)[k].ptype.logical)
    ensures var s, b := t.Siblings(logical), Edges(t, logical);
      Filled(Regeom(t, logical, k, g)).Siblings(logical) == Fill(s[k := s[k].(geom := g)], b.start, b.end, logical)
  {
    hide Fill, ExtIndex, Sound;
    RegeomOwner(t, logical, k, g);
  }

  /** l is what list r was filled to, but for the geometry at place j. */
  lemma StalePlace(l: seq<Slot>, j: nat, s: seq<Slot>, c: nat, g: Geom, last: int, hi: int, logical: bool)
    requires j < |l| && c < |s| && l[j] == s[c] && forall x :: x in s ==> IsUsed(x)
    requires l[j := l[j].(geom := g)] == Fill(s[c := s[c].(geom := g)], last, hi, logical)
    requires |Filter(IsUsed, l[..j])| == c
    ensures l == Stale(s, c, g, last, hi, logical)
  {
    hide Filter, Fill, FillPos;
    var r := s[c := s[c].(geom := g)];
    forall x | x in r
      ensures IsUsed(x)
    {
      assert s[c] in s && (x in s || x.ptype == s[c].ptype);
    }
    PlaceInFill(r, c, last, hi, logical);
    var f := l[j := l[j].(geom := g)];
    assert f[..j] == l[..j];
    SamePlace(f, j, FillPos(r, c, last, logical));
    assert l == f[j := s[c]];
  }

  lemma ShapeDistinct(d: Disk, logical: bool)
    requires d.Shape()
    ensures Distinct(d.List(logical))
  {
  }

  /** What the disk holds: the placeholders of the geometry g. */
  lemma StaleDisk(d: Disk, part: Partition, g: Geom)
    requires d.Shape() && Sound(d.CoreOf()) && part in CoreList(d, part.ptype.logical) && IsFilledFor(d, part, g)
    ensures d.TableOf() == StaleTable(d.CoreOf(), part.ptype.logical, Index(CoreList(d, part.ptype.logical), part), g)
  {
    hide Disk.Shape, Disk.TableOf, Disk.CoreOf, Sound, Filter, Fill, Index, Slots, FillPos, ExtIndex, Filled, Stale,
        Edges, Distinct;
    var logical, t := part.ptype.logical, d.CoreOf();
    var c, j := Index(CoreList(d, logical), part), Index(d.List(logical), part);
    ShapeDistinct(d, logical);
    CoreHas(d, part);
    CoreUsed(d);
    TableHas(d, logical, j);
    TableLists(d, logical);
    var b := Edges(t, logical);
    FilledAt(t, logical, c, g);
    PlaceInList(d.List(logical), part);
    StalePlace(d.TableOf().Siblings(logical), j, t.Siblings(logical), c, g, b.start, b.end, logical);
  }

  /** After a failing outermost ped_disk_set_partition_geom the placeholders are
      right exactly when the rejected geometry was harmless. */
  lemma StaleExactly(d: Disk, part: Partition, g: Geom)
    requires d.Shape() && Sound(d.CoreOf()) && part in CoreList(d, part.ptype.logical) && IsFilledFor(d, part, g)
    ensures IsFilled(d) <==>
      Harmless(d.CoreOf(), part.ptype.logical, Index(CoreList(d, part.ptype.logical), part), g)
  {
    hide Disk.Shape, Disk.TableOf, Disk.CoreOf, Sound, StaleTable, Harmless, Index;
    StaleDisk(d, part, g);
    CoreHas(d, part);
    CoreUsed(d);
    StaleTableIff(d.CoreOf(), part.ptype.logical, Index(CoreList(d, part.ptype.logical), part), g);
  }
}
