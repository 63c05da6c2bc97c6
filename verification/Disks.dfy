// A PedDisk: the two linked lists, the raw list operations, and traversal.

module Disks {
  import opened Common
  import opened Layout
  import opened Placement
  import opened Nodes

  /** Nodes of a primary list, of which only ext may be extended and own a list. */
  ghost predicate PrimaryNodes(s: seq<Partition>, ext: Partition?)
    reads s`partList
  {
    forall p | p in s ::
      && !p.ptype.logical
      && (p.ptype.IsExtended() ==> p == ext)
      && (p != ext ==> p.partList == null)
  }

  ghost predicate LogicalNodes(s: seq<Partition>)
    reads s`partList
  {
    forall p | p in s :: p.ptype.logical && p.partList == null
  }

  class Disk {
    const length: int        // dev->length
    const maxPrimaries: int  // get_max_primary_partition_count
    const hasExtended: bool  // PED_DISK_TYPE_EXTENDED
    var needsClobber: bool
    var partList: Partition?
    var updateMode: nat

    ghost var prims: seq<Partition>  // the list at partList
    ghost var logs: seq<Partition>   // the list at ext.partList
    ghost var ext: Partition?        // the owner of the logical list

    /** _ped_disk_alloc: an empty disk, in update mode. */
    constructor (length: int, maxPrimaries: int, hasExtended: bool)
      ensures this.length == length && this.maxPrimaries == maxPrimaries && this.hasExtended == hasExtended
      ensures !needsClobber && updateMode == 1 && prims == [] && logs == [] && ext == null
      ensures Shape()
    {
      this.length := length;
      this.maxPrimaries := maxPrimaries;
      this.hasExtended := hasExtended;
      needsClobber := false;
      partList := null;
      updateMode := 1;
      prims := [];
      logs := [];
      ext := null;
    }

    ghost function Nodes(): set<Partition>
      reads this`prims, this`logs
    {
      (set p | p in prims) + (set p | p in logs)
    }

    ghost function Owner(): set<Partition>
      reads this`ext
    {
      if ext == null then {} else {ext}
    }

    ghost predicate PrimsShape()
      reads this`partList, this`prims, this`logs, this`ext, prims`prev, prims`next, prims`partList
    {
      && Links(prims) && partList == Head(prims)
      && PrimaryNodes(prims, ext)
      && (ext != null ==> ext.ptype.IsExtended())
    }

    ghost predicate LogsShape()
      reads this`logs, this`ext, logs`prev, logs`next, logs`partList, Owner()`partList
    {
      && Links(logs)
      && LogicalNodes(logs)
      && (if ext == null then logs == [] else ext.partList == Head(logs))
    }

    /** Both lists are well linked and typed; the owner of the logical list
        may be out of the primary list, as it is while it is relinked. */
    ghost predicate Detached()
      reads this`partList, this`prims, this`logs, this`ext, prims`prev, prims`next, prims`partList, logs`prev,
          logs`next, logs`partList, Owner()`partList
    {
      PrimsShape() && LogsShape()
    }

    ghost predicate Shape()
      reads this`partList, this`prims, this`logs, this`ext, prims`prev, prims`next, prims`partList, logs`prev,
          logs`next, logs`partList, Owner()`partList
    {
      Detached() && (ext != null ==> ext in prims)
    }

    ghost function List(logical: bool): seq<Partition>
      reads this`prims, this`logs
    {
      if logical then logs else prims
    }

    /** The lists without their placeholders. */
    ghost function CoreOf(): Table
      reads this`prims, this`logs, prims`geom, logs`geom
    {
      var p, l := Filter(IsUsedNode, prims), Filter(IsUsedNode, logs);
      assert forall i | 0 <= i < |p| :: p[i] in prims;
      assert forall i | 0 <= i < |l| :: l[i] in logs;
      Table(length, Slots(p), Slots(l))
    }

    ghost function TableOf(): Table
      reads this`prims, this`logs, prims`geom, logs`geom
    {
      Table(length, Slots(prims), Slots(logs))
    }
  }

  /** The first EXTENDED slot of a primary list is its owner's. */
  lemma ExtIsOwner(s: seq<Partition>, ext: Partition?)
    requires forall p | p in s && p.ptype.IsExtended() :: p == ext
    requires ext != null ==> ext in s && ext.ptype.IsExtended()
    ensures ExtIndex(Slots(s)) == if ext == null then -1 else Index(s, ext)
    ensures forall t: Table | t.prims == Slots(s) :: t.Ext() == if ext == null then None else Some(ext.geom)
  {
    if ext != null {
      assert Slots(s)[Index(s, ext)].ptype.IsExtended();
    }
  }

  /** ped_disk_extended_partition. */
  method ExtendedPartition(d: Disk) returns (r: Partition?)
    requires d.PrimsShape()
    ensures r == if d.ext in d.prims then d.ext else null
  {
    r := d.partList;
    ghost var k := 0;
    while r != null
      invariant 0 <= k <= |d.prims|
      invariant r == if k == |d.prims| then null else d.prims[k]
      invariant forall i :: 0 <= i < k ==> !d.prims[i].ptype.IsExtended()
      decreases |d.prims| - k
    {
      if r.ptype.IsExtended() {
        break;
      }
      r := r.next;
      k := k + 1;
    }
  }

  /** A node that may be linked into the disk: it is not linked yet, it owns
      no list of its own, and it is not a second extended partition. */
  ghost predicate Linkable(d: Disk, part: Partition)
    reads d, part`partList
  {
    && part !in d.prims && part !in d.logs
    && (part.ptype.IsExtended() ==> d.ext == null || d.ext == part)
    && (part != d.ext ==> part.partList == null)
    && (part.ptype.logical ==> d.ext != null && d.ext in d.prims)
  }

  twostate lemma PrimsShapeKept(d: Disk)
    requires old(d.PrimsShape())
    requires d.prims == old(d.prims) && d.partList == old(d.partList) && d.ext == old(d.ext)
    requires forall p | p in old(d.prims) ::
        p.prev == old(p.prev) && p.next == old(p.next) && p.partList == old(p.partList)
    ensures d.PrimsShape()
  {
    LinksKept(d.prims);
  }

  twostate lemma LogsShapeKept(d: Disk)
    requires old(d.LogsShape())
    requires d.logs == old(d.logs)
    requires old(d.ext) == null || d.ext == old(d.ext)
    requires d.ext != null ==> d.ext.partList == (if old(d.ext) == null then null else old(d.ext.partList))
    requires forall p | p in old(d.logs) ::
        p.prev == old(p.prev) && p.next == old(p.next) && p.partList == old(p.partList)
    ensures d.LogsShape()
  {
    LinksKept(d.logs);
  }

  /** Nothing that the shape depends on has changed. */
  twostate lemma ShapeKept(d: Disk)
    requires old(d.Shape())
    requires d.prims == old(d.prims) && d.logs == old(d.logs) && d.ext == old(d.ext) && d.partList == old(d.partList)
    requires forall p | p in old(d.prims) ::
        p.prev == old(p.prev) && p.next == old(p.next) && p.partList == old(p.partList)
    requires forall p | p in old(d.logs) ::
        p.prev == old(p.prev) && p.next == old(p.next) && p.partList == old(p.partList)
    ensures d.Shape()
  {
    PrimsShapeKept(d);
    LogsShapeKept(d);
  }

  lemma TypedWith(s: seq<Partition>, k: nat, part: Partition, ext: Partition?, ext': Partition?)
    requires k <= |s| && (part != ext' ==> part.partList == null)
    requires part.ptype.IsExtended() ==> part == ext'
    requires ext' == ext || (ext == null && ext' == part)
    ensures PrimaryNodes(s, ext) && !part.ptype.logical ==> PrimaryNodes(With(s, k, part), ext')
    ensures LogicalNodes(s) && part.ptype.logical && part.partList == null ==> LogicalNodes(With(s, k, part))
  {
  }

  /** The owner of the logical list once part is linked. */
  ghost function OwnerWith(d: Disk, part: Partition): Partition?
    reads d`ext
  {
    if part.ptype.IsExtended() then part else d.ext
  }

  /** The head of the logical list hangs at the extended partition. */
  method SetLogicalHead(d: Disk, head: Partition?)
    requires d.PrimsShape() && d.ext != null && d.ext in d.prims
    modifies d.ext`partList
    ensures d.ext.partList == head && d.PrimsShape()
  {
    hide Links;
    var e := ExtendedPartition(d);
    e.partList := head;
  }

  // The raw operations on the primary list

  method InsertPrimaryBefore(d: Disk, loc: Partition, part: Partition)
    requires d.Detached() && Linkable(d, part) && !part.ptype.logical && loc in d.prims
    modifies d`partList, d`prims, d`ext, d.prims`prev, d.prims`next, part`prev, part`next
    ensures d.Detached() && d.ext == old(OwnerWith(d, part))
    ensures d.prims == With(old(d.prims), Index(old(d.prims), loc), part)
  {
    hide Links, Index;
    LinkBefore(d.prims, loc, part);
    if part.prev == null {
      d.partList := part;
    }
    TypedWith(d.prims, Index(d.prims, loc), part, d.ext, OwnerWith(d, part));
    d.prims, d.ext := With(d.prims, Index(d.prims, loc), part), OwnerWith(d, part);
    LogsShapeKept(d);
  }

  method InsertLogicalBefore(d: Disk, loc: Partition, part: Partition)
    requires d.Detached() && Linkable(d, part) && part.ptype.logical && loc in d.logs
    modifies d`logs, d.logs`prev, d.logs`next, part`prev, part`next, d.ext`partList
    ensures d.Detached()
    ensures d.logs == With(old(d.logs), Index(old(d.logs), loc), part)
  {
    LinkBefore(d.logs, loc, part);
    PrimsShapeKept(d);
    if part.prev == null {
      SetLogicalHead(d, part);
    }
    TypedWith(d.logs, Index(d.logs, loc), part, d.ext, d.ext);
    d.logs := With(d.logs, Index(d.logs, loc), part);
  }

  method InsertPrimaryAfter(d: Disk, loc: Partition, part: Partition)
    requires d.Detached() && Linkable(d, part) && !part.ptype.logical && loc in d.prims
    modifies d`prims, d`ext, d.prims`prev, d.prims`next, part`prev, part`next
    ensures d.Detached() && d.ext == old(OwnerWith(d, part))
    ensures d.prims == With(old(d.prims), Index(old(d.prims), loc) + 1, part)
  {
    hide Links, Index;
    LinkAfter(d.prims, loc, part);
    TypedWith(d.prims, Index(d.prims, loc) + 1, part, d.ext, OwnerWith(d, part));
    d.prims, d.ext := With(d.prims, Index(d.prims, loc) + 1, part), OwnerWith(d, part);
    LogsShapeKept(d);
  }

  method InsertLogicalAfter(d: Disk, loc: Partition, part: Partition)
    requires d.Detached() && Linkable(d, part) && part.ptype.logical && loc in d.logs
    modifies d`logs, d.logs`prev, d.logs`next, part`prev, part`next
    ensures d.Detached()
    ensures d.logs == With(old(d.logs), Index(old(d.logs), loc) + 1, part)
  {
    hide Links, Index;
    LinkAfter(d.logs, loc, part);
    PrimsShapeKept(d);
    TypedWith(d.logs, Index(d.logs, loc) + 1, part, d.ext, d.ext);
    d.logs := With(d.logs, Index(d.logs, loc) + 1, part);
  }

  /** Linking into an empty list: only the head pointer is written. */
  method InsertOnlyPrimary(d: Disk, part: Partition)
    requires d.Detached() && Linkable(d, part) && !part.ptype.logical && d.prims == []
    requires part.prev == null && part.next == null
    modifies d`partList, d`prims, d`ext
    ensures d.Detached() && d.ext == old(OwnerWith(d, part)) && d.prims == [part]
  {
    d.partList := part;
    d.prims, d.ext := [part], OwnerWith(d, part);
    LogsShapeKept(d);
  }

  method InsertOnlyLogical(d: Disk, part: Partition)
    requires d.Detached() && Linkable(d, part) && part.ptype.logical && d.logs == []
    requires part.prev == null && part.next == null
    modifies d`logs, d.ext`partList
    ensures d.Detached() && d.logs == [part]
  {
    SetLogicalHead(d, part);
    d.logs := [part];
  }

  method RemovePrimary(d: Disk, part: Partition)
    requires d.Detached() && part in d.prims
    modifies d`partList, d`prims, d.prims`prev, d.prims`next
    ensures d.Detached() && d.prims == Minus(old(d.prims), part)
    ensures part.prev == old(part.prev) && part.next == old(part.next)
  {
    hide Links, Index, Minus;
    MinusMembers(d.prims, part);
    Unlink(d.prims, part);
    if part.prev == null {
      d.partList := part.next;
    }
    d.prims := Minus(d.prims, part);
    LogsShapeKept(d);
  }

  method RemoveLogical(d: Disk, part: Partition)
    requires d.Detached() && part in d.logs && d.ext in d.prims
    modifies d`logs, d.logs`prev, d.logs`next, d.ext`partList
    ensures d.Detached() && d.logs == Minus(old(d.logs), part)
    ensures part.prev == old(part.prev) && part.next == old(part.next)
  {
    hide Links, Index, Minus;
    MinusMembers(d.logs, part);
    Unlink(d.logs, part);
    PrimsShapeKept(d);
    if part.prev == null {
      SetLogicalHead(d, part.next);
    }
    d.logs := Minus(d.logs, part);
  }

  /** _disk_raw_remove. */
  method RawRemove(d: Disk, part: Partition)
    requires d.Detached() && part in d.List(part.ptype.logical)
    requires part.ptype.logical ==> d.ext in d.prims
    modifies d`partList, d`prims, d`logs, d.Nodes()`prev, d.Nodes()`next, d.Owner()`partList
    ensures d.Detached()
    ensures d.List(part.ptype.logical) == Minus(old(d.List(part.ptype.logical)), part)
    ensures d.List(!part.ptype.logical) == old(d.List(!part.ptype.logical))
    ensures part.prev == old(part.prev) && part.next == old(part.next)
  {
    if part.ptype.logical {
      RemoveLogical(d, part);
    } else {
      RemovePrimary(d, part);
    }
  }

  /** The search loop of _disk_raw_add: the first sibling that starts after
      end, and the one before it. */
  method FindPlace(first: Partition?, ghost s: seq<Partition>, end: int)
      returns (walk: Partition?, last: Partition?)
    requires Links(s) && first == Head(s)
    ensures var k := InsertPos(Slots(s), end);
      walk == (if k == |s| then null else s[k]) && last == (if k == 0 then null else s[k - 1])
  {
    walk, last := first, null;
    ghost var k := 0;
    while walk != null
      invariant k <= |s|
      invariant walk == if k == |s| then null else s[k]
      invariant last == if k == 0 then null else s[k - 1]
      invariant forall i :: 0 <= i < k ==> s[i].geom.start <= end
      decreases |s| - k
    {
      if walk.geom.start > end {
        break;
      }
      last := walk;
      walk := walk.next;
      k := k + 1;
    }
    InsertPosIs(Slots(s), end, k);
  }

  lemma ListLinks(d: Disk)
    requires d.Detached()
    ensures Links(d.prims) && Links(d.logs)
  {
  }

  /** Links part between last and walk, its neighbours at position k. */
  method LinkBetween(d: Disk, last: Partition?, walk: Partition?, part: Partition, ghost k: nat)
    requires d.Detached() && Linkable(d, part)
    requires k <= |d.List(part.ptype.logical)|
    requires walk == if k == |d.List(part.ptype.logical)| then null else d.List(part.ptype.logical)[k]
    requires last == if k == 0 then null else d.List(part.ptype.logical)[k - 1]
    requires d.List(part.ptype.logical) == [] ==> part.prev == null && part.next == null
    modifies d`partList, d`prims, d`logs, d`ext, d.Nodes()`prev, d.Nodes()`next,
             part`prev, part`next, d.Owner()`partList
    ensures d.Detached() && d.ext == old(OwnerWith(d, part))
    ensures d.List(part.ptype.logical) == With(old(d.List(part.ptype.logical)), k, part)
    ensures d.List(!part.ptype.logical) == old(d.List(!part.ptype.logical))
  {
    hide Links, Index, Disk.Detached, With;
    ListLinks(d);
    ghost var s := d.List(part.ptype.logical);
    if walk != null {
      IndexAt(s, k);
      if part.ptype.logical {
        InsertLogicalBefore(d, walk, part);
      } else {
        InsertPrimaryBefore(d, walk, part);
      }
    } else if last != null {
      IndexAt(s, k - 1);
      if part.ptype.logical {
        InsertLogicalAfter(d, last, part);
      } else {
        InsertPrimaryAfter(d, last, part);
      }
    } else if part.ptype.logical {
      InsertOnlyLogical(d, part);
    } else {
      InsertOnlyPrimary(d, part);
    }
  }

  /** _disk_raw_add.  Only an insertion into an empty list leaves the links of
      part as they were. */
  method RawAdd(d: Disk, part: Partition)
    requires d.Detached() && Linkable(d, part)
    requires d.List(part.ptype.logical) == [] ==> part.prev == null && part.next == null
    modifies d`partList, d`prims, d`logs, d`ext, d.Nodes()`prev, d.Nodes()`next,
             part`prev, part`next, d.Owner()`partList
    ensures d.Detached() && d.ext == old(OwnerWith(d, part))
    ensures d.List(part.ptype.logical)
         == With(old(d.List(part.ptype.logical)), old(InsertPos(Slots(d.List(part.ptype.logical)), part.geom.end)),
             part)
    ensures d.List(!part.ptype.logical) == old(d.List(!part.ptype.logical))
  {
    hide Links, Slots, InsertPos, With, PrimaryNodes, LogicalNodes;
    var first := d.partList;
    if part.ptype.logical {
      var e := ExtendedPartition(d);
      first := e.partList;
    }
    ghost var k := InsertPos(Slots(d.List(part.ptype.logical)), part.geom.end);
    var walk, last := FindPlace(first, d.List(part.ptype.logical), part.geom.end);
    LinkBetween(d, last, walk, part, k);
  }
}
