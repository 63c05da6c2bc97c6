// Depth-first traversal of a disk's partitions, and what is found by it.

module Traversal {
  import opened Common
  import opened Geometry
  import opened Layout
  import opened Nodes
  import opened Disks

  predicate IsLogicalNode(p: Partition) {
    p.ptype.logical
  }

  predicate IsPrimaryNode(p: Partition) {
    !p.ptype.logical
  }

  /** The depth-first order: the logicals directly follow their extended. */
  ghost function Flatten(prims: seq<Partition>, logs: seq<Partition>, ext: Partition?): seq<Partition> {
    if ext in prims then
      var k := Index(prims, ext);
      prims[..k + 1] + logs + prims[k + 1..]
    else prims
  }

  ghost function Dfs(d: Disk): seq<Partition>
    reads d`prims, d`logs, d`ext
  {
    Flatten(d.prims, d.logs, d.ext)
  }

  /** ped_disk_next_partition; i is the position of part in the traversal. */
  method NextPartition(d: Disk, part: Partition?, ghost i: int) returns (r: Partition?)
    requires d.Shape()
    requires if part == null then i == -1 else 0 <= i < |Dfs(d)| && Dfs(d)[i] == part
    ensures r == if i + 1 < |Dfs(d)| then Dfs(d)[i + 1] else null
    ensures d.Shape()
  {
    if part == null {
      return d.partList;
    }
    if part.ptype.IsExtended() {
      return if part.partList != null then part.partList else part.next;
    }
    if part.next != null {
      return part.next;
    }
    if part.ptype.logical {
      var e := ExtendedPartition(d);
      if e == null {
        return null;
      }
      return e.next;
    }
    return null;
  }

  lemma {:induction false} FlattenParts(prims: seq<Partition>, logs: seq<Partition>, ext: Partition?)
    requires forall p | p in prims :: !p.ptype.logical
    requires forall p | p in logs :: p.ptype.logical
    requires ext in prims || logs == []
    ensures Filter(IsPrimaryNode, Flatten(prims, logs, ext)) == prims
    ensures Filter(IsLogicalNode, Flatten(prims, logs, ext)) == logs
  {
    hide Filter, Index;
    var k := if ext in prims then Index(prims, ext) + 1 else |prims|;
    var a, b := prims[..k], prims[k..];
    assert Flatten(prims, logs, ext) == a + logs + b && prims == a + b;
    FilterAll(IsPrimaryNode, a);
    FilterAll(IsPrimaryNode, b);
    FilterAll(IsLogicalNode, logs);
    FilterNone(IsLogicalNode, a);
    FilterNone(IsLogicalNode, b);
    FilterNone(IsPrimaryNode, logs);
    FilterConcat(IsPrimaryNode, a + logs, b);
    FilterConcat(IsPrimaryNode, a, logs);
    FilterConcat(IsLogicalNode, a + logs, b);
    FilterConcat(IsLogicalNode, a, logs);
  }

  ghost predicate Distinct(s: seq<Partition>) {
    forall i, j :: 0 <= i < j < |s| ==> s[i] != s[j]
  }

  lemma {:induction false} FilterDistinct(q: Partition -> bool, s: seq<Partition>)
    requires Distinct(s)
    ensures Distinct(Filter(q, s))
  {
    if s != [] {
      FilterDistinct(q, s[1..]);
    }
  }

  lemma DistinctConcat(a: seq<Partition>, b: seq<Partition>)
    ensures Distinct(a + b) <==> Distinct(a) && Distinct(b) && forall i, j :: 0 <= i < |a| && 0 <= j < |b| ==>
        a[i] != b[j]
  {
    var s := a + b;
    assert |s| == |a| + |b|;
    assert forall i :: 0 <= i < |a| ==> s[i] == a[i];
    assert forall j :: 0 <= j < |b| ==> s[|a| + j] == b[j];
    if Distinct(s) {
      forall i, j | 0 <= i < j < |a|
        ensures a[i] != a[j]
      {
        assert s[i] != s[j];
      }
      forall i, j | 0 <= i < j < |b|
        ensures b[i] != b[j]
      {
        assert s[|a| + i] != s[|a| + j];
      }
      forall i, j | 0 <= i < |a| && 0 <= j < |b|
        ensures a[i] != b[j]
      {
        assert s[i] != s[|a| + j];
      }
    }
  }

  lemma FlattenDistinct(prims: seq<Partition>, logs: seq<Partition>, ext: Partition?)
    requires Distinct(prims) && Distinct(logs)
    requires forall p | p in prims :: !p.ptype.logical
    requires forall p | p in logs :: p.ptype.logical
    ensures Distinct(Flatten(prims, logs, ext))
  {
    if ext in prims {
      var k := Index(prims, ext) + 1;
      var a, b := prims[..k], prims[k..];
      assert prims == a + b;
      hide Index, Distinct;
      DistinctConcat(a, b);
      assert forall i :: 0 <= i < |a| ==> a[i] in prims;
      assert forall i :: 0 <= i < |b| ==> b[i] in prims;
      assert forall i :: 0 <= i < |logs| ==> logs[i] in logs;
      DistinctConcat(a, logs);
      DistinctApart(a, logs, b);
      DistinctConcat(a + logs, b);
    }
  }

  lemma DistinctApart(a: seq<Partition>, l: seq<Partition>, b: seq<Partition>)
    requires forall i, j :: 0 <= i < |a| && 0 <= j < |b| ==> a[i] != b[j]
    requires forall i, j :: 0 <= i < |l| && 0 <= j < |b| ==> l[i] != b[j]
    ensures forall i, j :: 0 <= i < |a + l| && 0 <= j < |b| ==> (a + l)[i] != b[j]
  {
  }

  lemma DfsHead(d: Disk)
    requires d.Shape()
    ensures d.partList == Head(Dfs(d))
  {
  }

  lemma DfsMembers(d: Disk)
    requires d.Shape()
    ensures forall p: Partition :: p in Dfs(d) <==> p in d.prims || p in d.logs
  {
    hide Links;
    if d.ext in d.prims {
      var k := Index(d.prims, d.ext);
      assert d.prims == d.prims[..k + 1] + d.prims[k + 1..];
    }
  }

  /** The traversal meets every node of the disk once: the primaries in order,
      and the logicals, in order, directly after their extended. */
  lemma DfsMeetsAll(d: Disk)
    requires d.Shape()
    ensures Distinct(Dfs(d))
    ensures Filter(IsPrimaryNode, Dfs(d)) == d.prims
    ensures Filter(IsLogicalNode, Dfs(d)) == d.logs
    ensures d.ext != null ==>
      var k := Index(d.prims, d.ext);
      k + |d.logs| < |Dfs(d)| && Dfs(d)[k] == d.ext && Dfs(d)[k + 1..k + 1 + |d.logs|] == d.logs
  {
    hide Filter, Index;
    FlattenParts(d.prims, d.logs, d.ext);
    assert Distinct(d.prims) && Distinct(d.logs);
    FlattenDistinct(d.prims, d.logs, d.ext);
  }

  /** Calling ped_disk_next_partition until it answers NULL. */
  method VisitAll(d: Disk) returns (visited: seq<Partition>)
    requires d.Shape()
    ensures visited == Dfs(d)
  {
    visited := [];
    var walk := NextPartition(d, null, -1);
    while walk != null
      invariant |visited| <= |Dfs(d)| && visited == Dfs(d)[..|visited|]
      invariant walk == if |visited| < |Dfs(d)| then Dfs(d)[|visited|] else null
      decreases |Dfs(d)| - |visited|
    {
      visited := visited + [walk];
      walk := NextPartition(d, walk, |visited| - 1);
    }
  }

  /** ped_disk_get_primary_partition_count. */
  method PrimaryPartitionCount(d: Disk) returns (count: nat)
    requires d.Shape()
    ensures count == |Filter(IsActiveNode, d.prims)|
  {
    hide Links, Flatten, Filter;
    FilterNone(IsActiveNode, []);
    FilterNone(IsPrimaryNode, []);
    DfsHead(d);
    count := 0;
    var walk := d.partList;
    ghost var i := 0;
    ghost var D := Dfs(d);
    while walk != null
      invariant i <= |D| && walk == if i < |D| then D[i] else null
      invariant count == |Filter(IsActiveNode, Filter(IsPrimaryNode, D[..i]))|
      decreases |D| - i
    {
      if walk.ptype.IsActive() && !walk.ptype.logical {
        count := count + 1;
      }
      assert D[..i + 1] == D[..i] + [D[i]];
      FilterSnoc(IsPrimaryNode, D[..i], D[i]);
      ghost var met := Filter(IsPrimaryNode, D[..i]);
      FilterSnoc(IsActiveNode, met, D[i]);
      assert met + [] == met;
      walk := NextPartition(d, walk, i);
      i := i + 1;
    }
    assert D[..i] == D;
    DfsMeetsAll(d);
  }

  // ----- Lookup by sector -----

  ghost predicate Holds(p: Partition, x: int)
    reads p`geom
  {
    !p.ptype.IsExtended() && p.geom.Has(x)
  }

  /** The one sector of a tiled device that belongs to no node: the first one
      of the extended partition, unless a logical begins there. */
  ghost predicate IsBlindSpot(d: Disk, x: int)
    reads d, d.Nodes()`geom, d.Owner()`geom
  {
    d.ext != null && x == d.ext.geom.start && (d.logs == [] || d.logs[0].geom.start != x)
  }

  /** The owner of a sector of a tiled table among the primaries (k) and, when
      that is the extended partition, among its logicals (j, if any). */
  lemma TableOwner(t: Table, x: int) returns (k: nat, j: int)
    requires TiledTable(t) && 0 <= x < t.length
    ensures k < |t.prims| && t.prims[k].geom.Has(x)
    ensures forall i :: 0 <= i < |t.prims| ==> t.prims[i].geom.Has(t.prims[i].geom.start)
    ensures forall i :: 0 <= i < |t.prims| && i != k ==> !t.prims[i].geom.Has(x)
    ensures -1 <= j < |t.logs| && (j >= 0 ==> t.logs[j].geom.Has(x))
    ensures forall i :: 0 <= i < |t.logs| && i != j ==> !t.logs[i].geom.Has(x)
    ensures j < 0 <==>
      || k != ExtIndex(t.prims)
      || (x == t.prims[k].geom.start && (t.logs == [] || t.logs[0].geom.start != x))
  {
    TiledOrdered(t.prims, 0, t.length - 1);
    k := TiledOwner(t.prims, 0, t.length - 1, x);
    j := -1;
    if t.Ext().Some? {
      var e := t.Ext().value;
      var lo := LogicalLo(t.logs, e);
      TiledOrdered(t.logs, lo, e.end);
      if lo <= x <= e.end {
        j := TiledOwner(t.logs, lo, e.end, x);
      }
    }
  }

  /** Every sector of a tiled device but the blind spot is held by one node. */
  lemma SectorHolder(d: Disk, x: int) returns (h: Partition?)
    requires d.Shape() && TiledTable(d.TableOf()) && 0 <= x < d.length
    ensures h == null <==> IsBlindSpot(d, x)
    ensures h != null ==> h in Dfs(d) && Holds(h, x)
    ensures forall p | p in Dfs(d) && Holds(p, x) :: p == h
  {
    hide Links, TiledTable, Flatten, ExtIndex, Index;
    ExtIsOwner(d.prims, d.ext);
    DfsMembers(d);
    var t := d.TableOf();
    var k, j := TableOwner(t, x);
    IndexAt(d.prims, k);
    assert k == ExtIndex(t.prims) <==> d.prims[k] == d.ext;
    assert IsBlindSpot(d, x) ==> t.prims[ExtIndex(t.prims)].geom.Has(x);
    assert |t.logs| == |d.logs|;
    assert d.logs != [] ==> t.logs[0].geom == d.logs[0].geom;
    h := if j >= 0 then d.logs[j] else if d.prims[k] == d.ext then null else d.prims[k];
    forall p | p in Dfs(d) && Holds(p, x)
      ensures p == h
    {
      if p in d.prims {
        OnlyHolder(d.prims, k, p, x);
      } else {
        OnlyHolder(d.logs, j, p, x);
      }
    }
  }

  /** Where only slot k has a sector, no other node holds it. */
  lemma OnlyHolder(s: seq<Partition>, k: int, p: Partition, x: int)
    requires p in s && p.geom.Has(x)
    requires forall i :: 0 <= i < |Slots(s)| && i != k ==> !Slots(s)[i].geom.Has(x)
    ensures 0 <= k < |s| && p == s[k]
  {
    var i :| 0 <= i < |s| && s[i] == p;
    assert Slots(s)[i].geom == p.geom;
  }

  /** The search of ped_disk_get_partition_by_sector. */
  method SearchSector(d: Disk, sect: int) returns (r: Partition?)
    requires d.Shape()
    ensures r != null ==> r in Dfs(d) && Holds(r, sect)
    ensures r == null ==> forall p | p in Dfs(d) :: !Holds(p, sect)
  {
    hide Links;
    r := d.partList;
    ghost var i := 0;
    ghost var D := Dfs(d);
    while r != null
      invariant i <= |D| && r == if i < |D| then D[i] else null
      invariant forall j :: 0 <= j < i ==> !Holds(D[j], sect)
      decreases |D| - i
    {
      if r.geom.Has(sect) && !r.ptype.IsExtended() {
        break;
      }
      r := NextPartition(d, r, i);
      i := i + 1;
    }
  }

  /** ped_disk_get_partition_by_sector.  On a tiled disk the node is unique,
      and only the blind spot has none. */
  method GetPartitionBySector(d: Disk, sect: int) returns (r: Partition?)
    requires d.Shape()
    ensures r != null ==> r in Dfs(d) && Holds(r, sect)
    ensures r == null ==> forall p | p in Dfs(d) :: !Holds(p, sect)
    ensures TiledTable(d.TableOf()) && 0 <= sect < d.length ==>
      && (r == null <==> IsBlindSpot(d, sect))
      && (forall p | p in Dfs(d) && Holds(p, sect) :: p == r)
  {
    hide Links, TiledTable, IsBlindSpot, Flatten;
    r := SearchSector(d, sect);
    if TiledTable(d.TableOf()) && 0 <= sect < d.length {
      ghost var h := SectorHolder(d, sect);
    }
  }
}
