// Update mode, and the deletions that are mutually recursive with it.

module UpdateMode {
  import opened Common
  import opened Nodes
  import opened Disks
  import opened Traversal
  import opened FreeSpace

  /** What a push leaves of a list: outside update mode only the active nodes. */
  ghost function Base(s: seq<Partition>, mode: nat): seq<Partition> {
    if mode == 0 then Filter(IsActiveNode, s) else s
  }

  /** No placeholder and no metadata is left, and nothing else goes. */
  lemma BaseIs(s: seq<Partition>, mode: nat)
    ensures mode == 0 ==> forall p :: p in Base(s, mode) <==> p in s && p.ptype.IsActive()
    ensures mode > 0 ==> Base(s, mode) == s
  {
  }

  lemma {:induction false} FilterActive(s: seq<Partition>)
    ensures Filter(IsNotMetadataNode, Filter(IsUsedNode, s)) == Filter(IsActiveNode, s)
  {
    if s != [] {
      FilterActive(s[1..]);
      FilterConcat(IsNotMetadataNode, if IsUsedNode(s[0]) then [s[0]] else [], Filter(IsUsedNode, s[1..]));
    }
  }

  /** _disk_pop_update_mode, for a label whose alloc_metadata does nothing. */
  method Pop(d: Disk) returns (ghost made: set<Partition>)
    requires d.Shape() && d.updateMode > 0 && IsStripped(d)
    modifies d`updateMode, d`partList, d`prims, d`logs, d`ext, d.Nodes()`prev, d.Nodes()`next,
             d.Owner()`partList
    ensures d.Shape() && d.ext == old(d.ext) && d.updateMode == old(d.updateMode) - 1
    ensures Filter(IsUsedNode, d.prims) == old(d.prims) && Filter(IsUsedNode, d.logs) == old(d.logs)
    ensures if d.updateMode == 0 then IsFilled(d) else d.prims == old(d.prims) && d.logs == old(d.logs)
    ensures fresh(made) && d.Nodes() <= old(d.Nodes()) + made && (d.updateMode > 0 ==> made == {})
  {
    hide Disk.Shape, Filter, IsFilled;
    FilterAll(IsUsedNode, d.prims);
    FilterAll(IsUsedNode, d.logs);
    if d.updateMode == 1 {
      d.updateMode := d.updateMode - 1;
      made := AllocFreespace(d);
    } else {
      d.updateMode := d.updateMode - 1;
      made := {};
    }
  }

  /** Lexicographic measures of the recursion: first whether update mode is
      still to be entered, then who calls whom, then whether the partition
      that goes is extended. */
  function Outermost(mode: nat): nat {
    if mode == 0 then 1 else 0
  }

  function Height(p: Partition): nat {
    if p.ptype.IsExtended() then 1 else 0
  }

  /** _disk_push_update_mode. */
  method Push(d: Disk)
    requires d.Shape() && (d.updateMode > 0 ==> IsStripped(d))
    modifies d`updateMode, d`partList, d`prims, d`logs, d`ext, d.Nodes()`prev, d.Nodes()`next,
             d.Owner()`partList
    ensures d.Shape() && d.ext == old(d.ext) && d.updateMode == old(d.updateMode) + 1
    ensures d.prims == Base(old(d.prims), old(d.updateMode)) && d.logs == Base(old(d.logs), old(d.updateMode))
    ensures IsStripped(d) && d.Nodes() <= old(d.Nodes())
    decreases Outermost(d.updateMode), 0, 0, 0
  {
    hide Disk.Shape, Filter;
    if d.updateMode == 0 {
      FilterActive(d.prims);
      FilterActive(d.logs);
      RemoveFreespace(d);
      d.updateMode := d.updateMode + 1;
      RemoveMetadata(d);
    } else {
      d.updateMode := d.updateMode + 1;
    }
  }

  /** _disk_remove_metadata, as it is called in update mode. */
  method RemoveMetadata(d: Disk)
    requires d.Shape() && d.updateMode > 0 && IsStripped(d)
    modifies d`updateMode, d`partList, d`prims, d`logs, d`ext, d.Nodes()`prev, d.Nodes()`next,
             d.Owner()`partList
    ensures d.Shape() && d.ext == old(d.ext) && d.updateMode == old(d.updateMode)
    ensures d.prims == Filter(IsNotMetadataNode, old(d.prims)) && d.logs == Filter(IsNotMetadataNode, old(d.logs))
    ensures d.Nodes() <= old(d.Nodes())
    decreases 0, 4, 0, 0
  {
    hide Disk.Shape, Disk.Nodes, Dfs, Filter;
    var next := NextPartition(d, null, -1);
    ghost var i := 0;
    while next != null
      invariant d.Shape() && d.ext == old(d.ext) && d.updateMode == old(d.updateMode) && IsStripped(d)
      invariant i <= |Dfs(d)| && next == if i < |Dfs(d)| then Dfs(d)[i] else null
      invariant forall j :: 0 <= j < i ==> IsNotMetadataNode(Dfs(d)[j])
      invariant Filter(IsNotMetadataNode, d.prims) == Filter(IsNotMetadataNode, old(d.prims))
      invariant Filter(IsNotMetadataNode, d.logs) == Filter(IsNotMetadataNode, old(d.logs))
      invariant d.Nodes() <= old(d.Nodes())
      decreases |Dfs(d)| - i
    {
      var walk := next;
      ghost var j;
      next, j := NextMetadata(d, walk, i);
      if walk.ptype.metadata {
        DeleteMetadata(d, walk, i);
        i := j - 1;
      } else {
        i := j;
      }
    }
    DfsMembers(d);
    FilterAll(IsNotMetadataNode, d.prims);
    FilterAll(IsNotMetadataNode, d.logs);
  }

  /** The inner loop of _disk_remove_metadata: the next metadata node. */
  method NextMetadata(d: Disk, walk: Partition, ghost i: nat) returns (next: Partition?, ghost j: nat)
    requires d.Shape() && i < |Dfs(d)| && Dfs(d)[i] == walk
    ensures i < j <= |Dfs(d)| && next == if j < |Dfs(d)| then Dfs(d)[j] else null
    ensures forall k :: i < k < j ==> IsNotMetadataNode(Dfs(d)[k])
  {
    hide Disk.Shape, Dfs;
    next := NextPartition(d, walk, i);
    j := i + 1;
    while next != null && !next.ptype.metadata
      invariant d.Shape()
      invariant i < j <= |Dfs(d)| && next == if j < |Dfs(d)| then Dfs(d)[j] else null
      invariant forall k :: i < k < j ==> IsNotMetadataNode(Dfs(d)[k])
      decreases |Dfs(d)| - j
    {
      next := NextPartition(d, next, j);
      j := j + 1;
    }
  }

  lemma NotInBoth(d: Disk, x: Partition)
    requires d.Shape()
    ensures x.ptype.logical ==> x !in d.prims
    ensures !x.ptype.logical ==> x !in d.logs
    ensures x in d.prims && x.ptype.IsExtended() <==> x == d.ext
  {
  }

  /** Deleting the metadata node at position i, inside update mode. */
  method DeleteMetadata(d: Disk, walk: Partition, ghost i: nat)
    requires d.Shape() && d.updateMode > 0 && IsStripped(d)
    requires i < |Dfs(d)| && Dfs(d)[i] == walk && walk.ptype.metadata
    modifies d`updateMode, d`partList, d`prims, d`logs, d`ext, d.Nodes()`prev, d.Nodes()`next,
             d.Owner()`partList
    ensures d.Shape() && d.ext == old(d.ext) && d.updateMode == old(d.updateMode) && IsStripped(d)
    ensures Dfs(d) == old(Dfs(d))[..i] + old(Dfs(d))[i + 1..]
    ensures Filter(IsNotMetadataNode, d.prims) == Filter(IsNotMetadataNode, old(d.prims))
    ensures Filter(IsNotMetadataNode, d.logs) == Filter(IsNotMetadataNode, old(d.logs))
    ensures d.Nodes() <= old(d.Nodes())
    decreases 0, 3, 0, 0
  {
    hide Filter, Flatten, Index, Disk.Shape;
    NotInBoth(d, walk);
    DfsMinusIn(d, i);
    FilterAll(IsUsedNode, d.prims);
    FilterAll(IsUsedNode, d.logs);
    FilterMinus(IsNotMetadataNode, d.List(walk.ptype.logical), walk);
    ghost var made := DeletePartition(d, walk);
    FilterAll(IsUsedNode, d.prims);
    FilterAll(IsUsedNode, d.logs);
  }

  /** The lists once part, and with an extended part its logicals, are gone. */
  ghost function PrimsAfter(prims: seq<Partition>, part: Partition): seq<Partition> {
    if part in prims then Minus(prims, part) else prims
  }

  ghost function LogsAfter(logs: seq<Partition>, part: Partition): seq<Partition> {
    if part.ptype.IsExtended() then [] else if part in logs then Minus(logs, part) else logs
  }

  /** Unlinking a partition that owns no logicals. */
  method Detach(d: Disk, part: Partition)
    requires d.Shape() && IsStripped(d) && part in d.List(part.ptype.logical)
    requires part.ptype.IsExtended() ==> d.logs == []
    modifies d`partList, d`prims, d`logs, d`ext, d.Nodes()`prev, d.Nodes()`next, d.Owner()`partList
    ensures d.Shape() && IsStripped(d) && d.Nodes() <= old(d.Nodes())
    ensures d.ext == if part.ptype.IsExtended() then null else old(d.ext)
    ensures d.prims == PrimsAfter(old(d.prims), part) && d.logs == LogsAfter(old(d.logs), part)
  {
    RawRemove(d, part);
    if part.ptype.IsExtended() {
      d.ext := null;
    }
  }

  /** ped_disk_remove_partition.  Renumbering is left to the label. */
  method RemovePartition(d: Disk, part: Partition) returns (ghost made: set<Partition>)
    requires d.Shape() && (d.updateMode > 0 ==> IsStripped(d))
    requires part in Base(d.List(part.ptype.logical), d.updateMode)
    requires part.ptype.IsExtended() ==> Base(d.logs, d.updateMode) == []
    modifies d`updateMode, d`partList, d`prims, d`logs, d`ext, d.Nodes()`prev, d.Nodes()`next,
             d.Owner()`partList
    ensures d.Shape() && d.updateMode == old(d.updateMode)
    ensures d.ext == if part.ptype.IsExtended() then null else old(d.ext)
    ensures Filter(IsUsedNode, d.prims) == PrimsAfter(Base(old(d.prims), old(d.updateMode)), part)
    ensures Filter(IsUsedNode, d.logs) == LogsAfter(Base(old(d.logs), old(d.updateMode)), part)
    ensures if d.updateMode == 0 then IsFilled(d) else IsStripped(d)
    ensures fresh(made) && d.Nodes() <= old(d.Nodes()) + made && (d.updateMode > 0 ==> made == {})
    decreases Outermost(d.updateMode), 1, 0, 0
  {
    hide Disk.Shape, Filter, IsFilled, PrimsAfter, LogsAfter;
    Push(d);
    Detach(d, part);
    made := Pop(d);
  }

  lemma OwnerIs(d: Disk, part: Partition)
    requires d.Shape() && part in d.prims && part.ptype.IsExtended()
    ensures d.ext == part
  {
  }

  /** ped_disk_delete_partition. */
  method DeletePartition(d: Disk, part: Partition) returns (ghost made: set<Partition>)
    requires d.Shape() && (d.updateMode > 0 ==> IsStripped(d))
    requires part in Base(d.List(part.ptype.logical), d.updateMode)
    modifies d`updateMode, d`partList, d`prims, d`logs, d`ext, d.Nodes()`prev, d.Nodes()`next,
             d.Owner()`partList
    ensures d.Shape() && d.updateMode == old(d.updateMode)
    ensures d.ext == if part.ptype.IsExtended() then null else old(d.ext)
    ensures Filter(IsUsedNode, d.prims) == PrimsAfter(Base(old(d.prims), old(d.updateMode)), part)
    ensures Filter(IsUsedNode, d.logs) == LogsAfter(Base(old(d.logs), old(d.updateMode)), part)
    ensures if d.updateMode == 0 then IsFilled(d) else IsStripped(d)
    ensures fresh(made) && d.Nodes() <= old(d.Nodes()) + made && (d.updateMode > 0 ==> made == {})
    decreases Outermost(d.updateMode), 2, Height(part), 1
  {
    hide Disk.Shape, Filter, IsFilled, PrimsAfter, Minus;
    Push(d);
    if part.ptype.IsExtended() {
      OwnerIs(d, part);
      DeleteAllLogical(d);
    }
    made := RemovePartition(d, part);
    FilterAll(IsUsedNode, d.prims);
    FilterAll(IsUsedNode, d.logs);
    made := Pop(d);
  }

  /** ped_disk_delete_all_logical, as it is called in update mode. */
  method DeleteAllLogical(d: Disk)
    requires d.Shape() && d.updateMode > 0 && IsStripped(d) && d.ext != null
    modifies d`updateMode, d`partList, d`prims, d`logs, d`ext, d.Nodes()`prev, d.Nodes()`next,
             d.Owner()`partList
    ensures d.Shape() && d.ext == old(d.ext) && d.updateMode == old(d.updateMode) && IsStripped(d)
    ensures d.prims == old(d.prims) && d.logs == []
    decreases 0, 2, 1, 0
  {
    hide Disk.Shape, Filter, Minus;
    ShapeFacts(d);
    var e := ExtendedPartition(d);
    var walk := e.partList;
    while walk != null
      invariant d.Shape() && d.ext == old(d.ext) && d.updateMode == old(d.updateMode) && IsStripped(d)
      invariant d.prims == old(d.prims) && walk == Head(d.logs)
      invariant d.Nodes() <= old(d.Nodes())
      decreases |d.logs|
    {
      var next := walk.next;
      FirstLogical(d);
      ghost var made := DeletePartition(d, walk);
      FilterAll(IsUsedNode, d.prims);
      FilterAll(IsUsedNode, d.logs);
      walk := next;
    }
  }

  lemma FirstLogical(d: Disk)
    requires d.Shape() && d.logs != []
    ensures d.logs[0].ptype.logical && d.logs[0] !in d.prims
    ensures d.logs[0].next == Head(d.logs[1..]) && Minus(d.logs, d.logs[0]) == d.logs[1..]
  {
  }
}
