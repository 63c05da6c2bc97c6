// The public edits of a partition table that link a partition or move one:
// ped_disk_add_partition and ped_disk_set_partition_geom.

module Edits {
  import opened Common
  import opened Geometry
  import opened Layout
  import opened Placement
  import opened Nodes
  import opened Disks
  import opened Traversal
  import opened FreeSpace
  import opened UpdateMode

  /** self is where part is linked among its siblings, -1 if it is not. */
  ghost predicate IsSelf(d: Disk, part: Partition, self: int)
    reads d`prims, d`logs
  {
    if self < 0 then self == -1 && part !in d.List(part.ptype.logical)
    else self < |d.List(part.ptype.logical)| && d.List(part.ptype.logical)[self] == part
  }

  lemma OwnerFacts(d: Disk)
    requires d.Shape()
    ensures ExtIndex(d.TableOf().prims) == if d.ext == null then -1 else Index(d.prims, d.ext)
    ensures d.TableOf().Ext() == if d.ext == null then None else Some(d.ext.geom)
    ensures forall i :: 0 <= i < |d.prims| ==> (d.prims[i].ptype.IsExtended() <==> d.prims[i] == d.ext)
    ensures Links(d.prims) && Links(d.logs) && d.partList == Head(d.prims) && d.PrimsShape()
    ensures d.ext != null ==> d.ext in d.prims && d.ext.partList == Head(d.logs)
  {
    hide Links;
    ExtIsOwner(d.prims, d.ext);
  }

  /** _partition_get_overlap_constraint for a request that starts at from. */
  method OverlapWindow(d: Disk, part: Partition, from: int, ghost self: int) returns (w: Option<Geom>)
    requires d.Shape() && IsSelf(d, part, self) && (part.ptype.logical ==> d.ext != null)
    ensures w == RoomWindow(d.TableOf(), part.ptype, self, from)
    ensures d.Shape()
  {
    hide Disk.Shape, WindowFrom, ExtIndex, Slots;
    OwnerFacts(d);
    var minStart, maxEnd, walk := 0, LLONG_MAX - 1, d.partList;
    if part.ptype.logical {
      var e := ExtendedPartition(d);
      minStart, maxEnd, walk := e.geom.start, e.geom.end, e.partList;
    }
    w := WalkWindow(d.List(part.ptype.logical), walk, part, from, minStart, maxEnd, self);
    ShapeKept(d);
    OwnerFacts(d);
  }

  /** Its loop over the siblings s. */
  method WalkWindow(ghost s: seq<Partition>, first: Partition?, part: Partition, from: int, lo: int, hi: int,
      ghost self: int)
      returns (w: Option<Geom>)
    requires Links(s) && first == Head(s)
    requires if self < 0 then self == -1 && part !in s else self < |s| && s[self] == part
    ensures w == Window(Slots(s), self, from, lo, hi)
  {
    hide Slots, WindowFrom;
    var minStart, maxEnd, walk := lo, hi, first;
    ghost var i := 0;
    while walk != null && (walk.geom.start < from || minStart >= walk.geom.start)
      invariant i <= |s| && walk == if i < |s| then s[i] else null
      invariant WindowFrom(Slots(s), self, i, from, minStart, hi) == Window(Slots(s), self, from, lo, hi)
      decreases |s| - i
    {
      WindowStep(Slots(s), self, i, from, minStart, hi);
      if walk != part {
        minStart := walk.geom.end + 1;
      }
      walk := walk.next;
      i := i + 1;
    }
    WindowStop(Slots(s), self, i, from, minStart, hi);
    if walk == part {
      walk := walk.next;
    }
    if walk != null {
      maxEnd := walk.geom.start - 1;
    }
    w := if minStart > maxEnd then None else Some(Geom(minStart, maxEnd));
  }

  /** What _partition_check_basic_sanity accepts: the label supports the type,
      there is a slot left for a primary, and a logical has an extended. */
  ghost predicate BasicallySane(d: Disk, ptype: PartType)
    reads d
  {
    && (d.hasExtended || (!ptype.IsExtended() && ptype != PartType(true, false, false, false)))
    && (ptype.IsActive() && !ptype.logical ==> |Filter(IsActiveNode, d.prims)| + 1 <= d.maxPrimaries)
    && (ptype.logical ==> d.ext != null)
  }

  /** _partition_check_basic_sanity. */
  method CheckBasicSanity(d: Disk, part: Partition) returns (ok: bool)
    requires d.Shape()
    ensures ok == BasicallySane(d, part.ptype)
    ensures d.Shape()
  {
    hide Disk.Shape, Filter;
    OwnerFacts(d);
    var e := ExtendedPartition(d);
    ShapeKept(d);
    if !d.hasExtended && (part.ptype.IsExtended() || part.ptype == PartType(true, false, false, false)) {
      return false;
    }
    if part.ptype.IsActive() && !part.ptype.logical {
      var count := PrimaryPartitionCount(d);
      ShapeKept(d);
      if count + 1 > d.maxPrimaries {
        return false;
      }
    }
    if part.ptype.logical && e == null {
      return false;
    }
    return true;
  }

  /** _check_extended_partition. */
  method CheckExtended(d: Disk, part: Partition, ghost self: int) returns (ok: bool)
    requires d.Shape() && IsSelf(d, part, self) && part.ptype.IsExtended() && (self < 0 ==> part.partList == null)
    ensures ok <==> (d.ext == null || part == d.ext) && forall i :: 0 <= i < |d.logs| ==>
        d.logs[i].geom.Inside(part.geom)
    ensures d.Shape()
  {
    var e := ExtendedPartition(d);
    var own := if e == null then part else e;
    if part != own {
      return false;
    }
    var walk := own.partList;
    ghost var i := 0;
    while walk != null
      invariant i <= |d.logs| && walk == if i < |d.logs| then d.logs[i] else null
      invariant forall j :: 0 <= j < i ==> d.logs[j].geom.Inside(part.geom)
      decreases |d.logs| - i
    {
      if !walk.geom.Inside(own.geom) {
        return false;
      }
      walk := walk.next;
      i := i + 1;
    }
    return true;
  }

  /** The checks of _check_partition, read off the linked lists. */
  ghost predicate PassesChecks(d: Disk, part: Partition, a: Answers)
    reads d, part`geom, d.logs`geom, d.Owner()`geom
  {
    && (part.ptype.IsExtended() ==>
          (d.ext == null || part == d.ext) && forall i :: 0 <= i < |d.logs| ==> d.logs[i].geom.Inside(part.geom))
    && (part.ptype.logical ==> (d.ext != null && part.geom.Inside(d.ext.geom)) || a.ignoreOutsideExtended)
    && (!part.ptype.logical && d.ext != null && d.ext != part && part.geom.Inside(d.ext.geom) ==>
        a.ignoreInsideExtended)
    && (part.geom.end >= d.length ==> a.ignoreOutsideDisk)
    && (part.ptype.metadata || a.accepted)
  }

  lemma PassesIsChecked(d: Disk, part: Partition, self: int, a: Answers)
    requires d.Shape() && IsSelf(d, part, self)
    ensures PassesChecks(d, part, a) == Checked(d.TableOf(), part.ptype, self, part.geom, a)
  {
    hide Disk.Shape, ExtIndex, Slots, Index;
    OwnerFacts(d);
    if d.ext != null && !part.ptype.logical && self >= 0 {
      IndexAt(d.prims, self);
    }
    assert forall i :: 0 <= i < |d.logs| ==> d.TableOf().logs[i].geom == d.logs[i].geom;
    assert |d.TableOf().logs| == |d.logs|;
  }

  /** _check_partition. */
  method CheckPartition(d: Disk, part: Partition, a: Answers, ghost self: int) returns (ok: bool)
    requires d.Shape() && IsSelf(d, part, self) && (self < 0 ==> part.partList == null)
    requires part.ptype.logical ==> d.ext != null
    ensures ok == Checked(d.TableOf(), part.ptype, self, part.geom, a)
    ensures d.Shape()
  {
    hide Disk.Shape, Disk.TableOf, Checked;
    OwnerFacts(d);
    PassesIsChecked(d, part, self, a);
    ghost var t := d.TableOf();
    var e := ExtendedPartition(d);
    ShapeKept(d);
    if part.ptype.IsExtended() {
      var fine := CheckExtended(d, part, self);
      if !fine {
        return false;
      }
    }
    if part.ptype.logical && !part.geom.Inside(e.geom) && !a.ignoreOutsideExtended {
      return false;
    }
    if !part.ptype.logical && e != null && e != part && part.geom.Inside(e.geom) && !a.ignoreInsideExtended {
      return false;
    }
    if part.geom.end >= d.length && !a.ignoreOutsideDisk {
      return false;
    }
    if !part.ptype.metadata && !a.accepted {
      return false;
    }
    return true;
  }

  /** _partition_align; answer is what the label finds. */
  method AlignPart(d: Disk, part: Partition, c: Option<Constraint>, answer: Option<Geom>) returns (ok: bool)
    requires d.updateMode > 0
    modifies part`geom
    ensures match Align(d.needsClobber, c, old(part.geom), answer)
            case Some(g) => ok && part.geom == g
            case None => !ok && part.geom == old(part.geom)
  {
    if d.needsClobber {
      return true;
    }
    if c.None? || answer.None? || !answer.value.Valid() || !c.value.IsSolution(answer.value) {
      return false;
    }
    part.geom := answer.value;
    return true;
  }

  /** The table a push would leave. */
  ghost function BaseTable(d: Disk): Table
    reads d`prims, d`logs, d`updateMode, d.prims`geom, d.logs`geom
  {
    var p, l := Base(d.prims, d.updateMode), Base(d.logs, d.updateMode);
    assert forall i | 0 <= i < |p| :: p[i] in d.prims;
    assert forall i | 0 <= i < |l| :: l[i] in d.logs;
    Table(d.length, Slots(p), Slots(l))
  }

  /** Changing the geometry of an unlinked partition does not touch the table. */
  twostate lemma TableKept(d: Disk)
    requires d.prims == old(d.prims) && d.logs == old(d.logs)
    requires forall i | 0 <= i < |d.prims| :: d.prims[i].geom == old(d.prims[i].geom)
    requires forall i | 0 <= i < |d.logs| :: d.logs[i].geom == old(d.logs[i].geom)
    ensures d.TableOf() == old(d.TableOf())
  {
    SlotsKept(d.prims);
    SlotsKept(d.logs);
  }

  /** ped_disk_add_partition up to the last check: the geometry is settled, and
      nothing is linked yet. */
  method SettleNew(d: Disk, part: Partition, c: Option<Constraint>, a: Answers) returns (ok: bool)
    requires d.Shape() && d.updateMode > 0 && part !in d.prims && part !in d.logs && part.partList == null
    requires part.ptype.logical ==> d.ext != null
    modifies part`geom
    ensures d.Shape() && d.TableOf() == old(d.TableOf())
    ensures var v := AddVerdict(old(d.TableOf()), part.ptype, old(part.geom), c, d.needsClobber, a);
      ok == v.Placed? && part.geom == GeomAt(v, old(part.geom), old(part.geom))
  {
    hide Disk.Shape, Disk.TableOf, RoomWindow, Narrow, Checked, Align;
    if part.ptype.IsActive() {
      var window := OverlapWindow(d, part, part.geom.start, -1);
      var both := Narrow(window, c);
      if both.None? && c.Some? {
        if !a.ignoreOverlap {
          TableKept(d);
          return false;
        }
        both := c;
      }
      if !a.numbered {
        TableKept(d);
        return false;
      }
      var aligned := AlignPart(d, part, both, a.aligned);
      assert forall i | 0 <= i < |d.prims| :: d.prims[i] != part;
      assert forall i | 0 <= i < |d.logs| :: d.logs[i] != part;
      TableKept(d);
      ShapeKept(d);
      if !aligned {
        return false;
      }
    }
    ok := CheckPartition(d, part, a, -1);
    TableKept(d);
  }

  /** Linking a settled partition. */
  method LinkNew(d: Disk, part: Partition)
    requires d.Shape() && IsStripped(d) && Linkable(d, part) && IsUsedNode(part)
    requires part != d.ext && (d.List(part.ptype.logical) == [] ==> part.prev == null && part.next == null)
    modifies d`partList, d`prims, d`logs, d`ext, d.Nodes()`prev, d.Nodes()`next,
             part`prev, part`next, d.Owner()`partList
    ensures d.Shape() && IsStripped(d)
    ensures d.ext == old(OwnerWith(d, part))
    ensures d.List(part.ptype.logical)
         == With(old(d.List(part.ptype.logical)), old(InsertPos(Slots(d.List(part.ptype.logical)), part.geom.end)),
             part)
    ensures d.List(!part.ptype.logical) == old(d.List(!part.ptype.logical))
    ensures d.TableOf() == Added(old(d.TableOf()), SlotOf(part))
  {
    hide Disk.Detached, Slots, InsertPos, With;
    ghost var s := d.List(part.ptype.logical);
    ghost var k := InsertPos(Slots(s), part.geom.end);
    RawAdd(d, part);
    SlotsKept(s);
    SlotsKept(d.List(!part.ptype.logical));
    SlotsWith(s, k, part);
    WithMembers(s, k, part);
  }

  /** The disk is settled: outside update mode it is filled with placeholders,
      inside it has none. */
  ghost predicate IsSettled(d: Disk)
    reads d`prims, d`logs, d`updateMode, d.prims`geom, d.logs`geom
  {
    if d.updateMode == 0 then IsFilled(d) else IsStripped(d)
  }

  /** What the active lists hold after a push, as they were before it. */
  ghost function BaseList(d: Disk, logical: bool): seq<Partition>
    reads d`prims, d`logs, d`updateMode
  {
    Base(d.List(logical), d.updateMode)
  }

  ghost function CoreList(d: Disk, logical: bool): seq<Partition>
    reads d`prims, d`logs
  {
    Filter(IsUsedNode, d.List(logical))
  }

  twostate lemma PushedTable(d: Disk)
    requires d.prims == old(Base(d.prims, d.updateMode)) && d.logs == old(Base(d.logs, d.updateMode))
    requires forall p | p in old(d.prims) :: p.geom == old(p.geom)
    requires forall p | p in old(d.logs) :: p.geom == old(p.geom)
    ensures d.TableOf() == old(BaseTable(d))
  {
    var s, l := old(Base(d.prims, d.updateMode)), old(Base(d.logs, d.updateMode));
    assert forall i | 0 <= i < |s| :: s[i] in old(d.prims);
    assert forall i | 0 <= i < |l| :: l[i] in old(d.logs);
    SlotsKept(s);
    SlotsKept(l);
  }

  twostate lemma PoppedCore(d: Disk)
    requires Filter(IsUsedNode, d.prims) == old(d.prims) && Filter(IsUsedNode, d.logs) == old(d.logs)
    requires forall p | p in old(d.prims) :: p.geom == old(p.geom)
    requires forall p | p in old(d.logs) :: p.geom == old(p.geom)
    ensures d.CoreOf() == old(d.TableOf())
  {
    SlotsKept(old(d.prims));
    SlotsKept(old(d.logs));
  }

  lemma PlacedFacts(t: Table, ptype: PartType, g: Geom, c: Option<Constraint>, clobber: bool, a: Answers)
    requires AddVerdict(t, ptype, g, c, clobber, a).Placed? && g.Valid()
    ensures AddVerdict(t, ptype, g, c, clobber, a).geom.Valid()
    ensures ptype.IsExtended() ==> ExtIndex(t.prims) < 0
  {
  }

  lemma OwnerLinked(d: Disk)
    requires d.Shape()
    ensures d.ext != null ==> d.ext in d.Nodes()
  {
  }

  /** Settling, and on success linking, a new partition in update mode. */
  method PlaceNew(d: Disk, part: Partition, c: Option<Constraint>, a: Answers) returns (ok: bool)
    requires d.Shape() && d.updateMode > 0 && IsStripped(d)
    requires part !in d.Nodes() && IsUsedNode(part) && part.geom.Valid() && part.partList == null
    requires d.List(part.ptype.logical) == [] ==> part.prev == null && part.next == null
    requires part.ptype.logical ==> d.ext != null
    modifies d`partList, d`prims, d`logs, d`ext, d.Nodes()`prev, d.Nodes()`next,
             d.Owner()`partList, part`geom, part`prev, part`next
    ensures d.Shape() && IsStripped(d)
    ensures var v := AddVerdict(old(d.TableOf()), part.ptype, old(part.geom), c, d.needsClobber, a);
      ok == v.Placed? && part.geom == GeomAt(v, old(part.geom), old(part.geom))
    ensures d.TableOf() == if ok then Added(old(d.TableOf()), SlotOf(part)) else old(d.TableOf())
    ensures d.List(part.ptype.logical)
         == var s := old(d.List(part.ptype.logical));
            if ok then With(s, InsertPos(Slots(s), part.geom.end), part) else s
    ensures d.List(!part.ptype.logical) == old(d.List(!part.ptype.logical))
    ensures d.ext == old(d.ext) || d.ext == part
    ensures d.Nodes() <= old(d.Nodes()) + {part}
  {
    hide Disk.Shape, Disk.TableOf, AddVerdict, Slots, With, InsertPos, Added, ExtIndex;
    ok := SettleNew(d, part, c, a);
    if !ok {
      return;
    }
    ghost var s := d.List(part.ptype.logical);
    PlacedFacts(old(d.TableOf()), part.ptype, old(part.geom), c, d.needsClobber, a);
    OwnerFacts(d);
    label L:
    LinkNew(d, part);
    SlotsKept@L(s);
    WithMembers(s, InsertPos(Slots(s), part.geom.end), part);
  }

  /** The push of ped_disk_add_partition and what it does in update mode. */
  method PushAndPlace(d: Disk, part: Partition, c: Option<Constraint>, a: Answers) returns (ok: bool)
    requires d.Shape() && (d.updateMode > 0 ==> IsStripped(d))
    requires part !in d.Nodes() && IsUsedNode(part) && part.geom.Valid() && part.partList == null
    requires BaseList(d, part.ptype.logical) == [] ==> part.prev == null && part.next == null
    requires part.ptype.logical ==> d.ext != null
    modifies d`updateMode, d`partList, d`prims, d`logs, d`ext, d.Nodes()`prev, d.Nodes()`next,
             d.Owner()`partList, part`geom, part`prev, part`next
    ensures d.Shape() && d.updateMode == old(d.updateMode) + 1 && IsStripped(d)
    ensures d.Nodes() <= old(d.Nodes()) + {part} && (d.ext == old(d.ext) || d.ext == part)
    ensures var v := AddVerdict(old(BaseTable(d)), part.ptype, old(part.geom), c, d.needsClobber, a);
      ok == v.Placed? && part.geom == GeomAt(v, old(part.geom), old(part.geom))
    ensures d.TableOf() == if ok then Added(old(BaseTable(d)), SlotOf(part)) else old(BaseTable(d))
    ensures d.List(part.ptype.logical)
         == var s := old(BaseList(d, part.ptype.logical));
            if ok then With(s, InsertPos(Slots(s), part.geom.end), part) else s
    ensures d.List(!part.ptype.logical) == old(BaseList(d, !part.ptype.logical))
  {
    hide Disk.Shape, Disk.TableOf, Disk.Nodes, BaseTable, Filter, AddVerdict, Slots, With, InsertPos, Added,
        IsUsedNode, IsActiveNode, SlotOf, IsStripped, GeomAt;
    OwnerLinked(d);
    Push(d);
    PushedTable(d);
    ok := PlaceNew(d, part, c, a);
  }

  /** ped_disk_add_partition after its sanity check. */
  method AddSane(d: Disk, part: Partition, c: Option<Constraint>, a: Answers)
      returns (ok: bool, ghost made: set<Partition>)
    requires d.Shape() && (d.updateMode > 0 ==> IsStripped(d))
    requires part !in d.Nodes() && IsUsedNode(part) && part.geom.Valid() && part.partList == null
    requires BaseList(d, part.ptype.logical) == [] ==> part.prev == null && part.next == null
    requires part.ptype.logical ==> d.ext != null
    modifies d`updateMode, d`partList, d`prims, d`logs, d`ext, d.Nodes()`prev, d.Nodes()`next,
             d.Owner()`partList, part`geom, part`prev, part`next, part`partList
    ensures d.Shape() && d.updateMode == old(d.updateMode) && IsSettled(d)
    ensures fresh(made) && d.Nodes() <= old(d.Nodes()) + made + {part} && (d.ext == old(d.ext) || d.ext == part)
    ensures var v := AddVerdict(old(BaseTable(d)), part.ptype, old(part.geom), c, d.needsClobber, a);
      ok == v.Placed? && part.geom == GeomAt(v, old(part.geom), old(part.geom))
    ensures d.CoreOf() == if ok then Added(old(BaseTable(d)), SlotOf(part)) else old(BaseTable(d))
    ensures CoreList(d, part.ptype.logical)
         == var s := old(BaseList(d, part.ptype.logical));
            if ok then With(s, InsertPos(Slots(s), part.geom.end), part) else s
    ensures CoreList(d, !part.ptype.logical) == old(BaseList(d, !part.ptype.logical))
  {
    hide Disk.Shape, Disk.TableOf, Disk.CoreOf, Disk.Nodes, BaseTable, Filter, IsFilled, AddVerdict, Slots, With,
        InsertPos, Added, IsUsedNode, IsActiveNode, SlotOf, IsStripped, GeomAt;
    BaseInNodes(d, part);
    ghost var s := BaseList(d, part.ptype.logical);
    ok := PushAndPlace(d, part, c, a);
    label L:
    made := Pop(d);
    PoppedCore@L(d);
    SlotsKept(s);
  }

  lemma BaseInNodes(d: Disk, part: Partition)
    requires part !in d.Nodes()
    ensures part !in BaseList(d, part.ptype.logical)
  {
  }

  /** ped_disk_add_partition.  A basically sane request ends as its verdict
      says; on failure the active lists are as they were.  The links of part may
      be stale, except for the first partition of a list. */
  method AddPartition(d: Disk, part: Partition, c: Option<Constraint>, a: Answers)
      returns (ok: bool, ghost made: set<Partition>)
    requires d.Shape() && (d.updateMode > 0 ==> IsStripped(d))
    requires part !in d.Nodes() && IsUsedNode(part) && part.geom.Valid() && part.partList == null
    requires BaseList(d, part.ptype.logical) == [] ==> part.prev == null && part.next == null
    modifies d`updateMode, d`partList, d`prims, d`logs, d`ext, d.Nodes()`prev, d.Nodes()`next,
             d.Owner()`partList, part`geom, part`prev, part`next, part`partList
    ensures d.Shape() && d.updateMode == old(d.updateMode)
    ensures fresh(made) && d.Nodes() <= old(d.Nodes()) + made + {part} && (d.ext == old(d.ext) || d.ext == part)
    ensures !old(BasicallySane(d, part.ptype)) ==>
      !ok && d.prims == old(d.prims) && d.logs == old(d.logs) && part.geom == old(part.geom)
    ensures old(BasicallySane(d, part.ptype)) ==>
      && IsSettled(d)
      && (var v := AddVerdict(old(BaseTable(d)), part.ptype, old(part.geom), c, d.needsClobber, a);
          ok == v.Placed? && part.geom == GeomAt(v, old(part.geom), old(part.geom)))
      && d.CoreOf() == (if ok then Added(old(BaseTable(d)), SlotOf(part)) else old(BaseTable(d)))
      && (var s := old(BaseList(d, part.ptype.logical));
          CoreList(d, part.ptype.logical) == if ok then With(s, InsertPos(Slots(s), part.geom.end), part) else s)
      && CoreList(d, !part.ptype.logical) == old(BaseList(d, !part.ptype.logical))
  {
    hide Disk.Shape, Disk.CoreOf, BaseTable, BaseList, CoreList, IsSettled, BasicallySane, AddVerdict, Slots, With,
        InsertPos, Added;
    ok := CheckBasicSanity(d, part);
    made := {};
    if ok {
      SaneHasOwner(d, part.ptype);
      ok, made := AddSane(d, part, c, a);
    }
  }

  lemma SaneHasOwner(d: Disk, ptype: PartType)
    requires BasicallySane(d, ptype)
    ensures ptype.logical ==> d.ext != null
  {
  }

  /** Index k of one of the lists of a disk. */
  datatype Where = Where(d: Disk, logical: bool, k: nat)

  /** Overwriting a geometry, seen from the table. */
  twostate lemma RegeomKept(w: Where)
    requires w.d.prims == old(w.d.prims) && w.d.logs == old(w.d.logs)
    requires w.k < |w.d.List(w.logical)| && w.d.List(w.logical)[w.k] !in w.d.List(!w.logical)
    requires Distinct(w.d.List(w.logical))
    requires forall p | p in w.d.prims && p != w.d.List(w.logical)[w.k] :: p.geom == old(p.geom)
    requires forall p | p in w.d.logs && p != w.d.List(w.logical)[w.k] :: p.geom == old(p.geom)
    ensures w.d.TableOf() == Regeom(old(w.d.TableOf()), w.logical, w.k, w.d.List(w.logical)[w.k].geom)
  {
    var s := w.d.List(w.logical);
    SlotsKept(w.d.List(!w.logical));
    assert Slots(s) == old(Slots(s))[w.k := old(Slots(s))[w.k].(geom := s[w.k].geom)];
  }

  lemma SelfFacts(d: Disk, part: Partition)
    requires d.Shape() && part in d.List(part.ptype.logical)
    ensures var k := Index(d.List(part.ptype.logical), part); IsSelf(d, part, k)
    ensures part !in d.List(!part.ptype.logical) && Distinct(d.prims) && Distinct(d.logs)
    ensures part.ptype.logical ==> d.ext != null
    ensures AtMostOneExtended(d.TableOf().prims)
  {
    hide ExtIndex, Index;
    OwnerFacts(d);
    forall i | 0 <= i < |d.prims| && d.TableOf().prims[i].ptype.IsExtended()
      ensures i == ExtIndex(d.TableOf().prims)
    {
      IndexAt(d.prims, i);
    }
  }

  lemma TableHas(d: Disk, logical: bool, k: nat)
    requires k < |d.List(logical)|
    ensures k < |d.TableOf().Siblings(logical)| && d.TableOf().Siblings(logical)[k] == SlotOf(d.List(logical)[k])
  {
  }

  /** ped_disk_set_partition_geom up to the last check, in update mode. */
  method SettleMove(d: Disk, part: Partition, c: Option<Constraint>, g: Geom, a: Answers) returns (ok: bool)
    requires d.Shape() && d.updateMode > 0 && part in d.List(part.ptype.logical) && g.Valid()
    modifies part`geom
    ensures d.Shape()
    ensures var k := Index(d.List(part.ptype.logical), part);
            var v := MoveVerdict(old(d.TableOf()), part.ptype, k, g, c, d.needsClobber, a);
      && ok == v.Placed?
      && part.geom == GeomAt(v, old(part.geom), g)
      && d.TableOf() == Regeom(old(d.TableOf()), part.ptype.logical, k, part.geom)
  {
    hide Disk.Shape, Disk.TableOf, RoomWindow, Narrow, Checked, Regeom, Index, Disk.Nodes;
    ghost var logical := part.ptype.logical;
    ghost var k := Index(d.List(logical), part);
    ghost var t := d.TableOf();
    SelfFacts(d, part);
    TableHas(d, logical, k);
    var window := OverlapWindow(d, part, g.start, k);
    var both := Narrow(window, c);
    if both.None? && c.Some? {
      RegeomKept(Where(d, logical, k));
      return false;
    }
    part.geom := g;
    ok := AlignPart(d, part, both, a.aligned);
    RegeomKept(Where(d, logical, k));
    ShapeKept(d);
    if !ok {
      return;
    }
    label L:
    ok := CheckPartition(d, part, a, k);
    RegeomKept(Where(d, logical, k));
    CheckedRegeom(t, logical, k, part.geom, part.geom, a);
  }

  /** The list after part was taken out and added again with its geometry. */
  ghost function Relinked(s: seq<Partition>, part: Partition): seq<Partition>
    requires part in s
    reads s`geom
  {
    var o := Minus(s, part);
    assert forall i | 0 <= i < |o| :: o[i] in s;
    With(o, InsertPos(Slots(o), part.geom.end), part)
  }

  lemma RelinkedMembers(s: seq<Partition>, part: Partition)
    requires part in s
    ensures forall i | 0 <= i < |Relinked(s, part)| :: Relinked(s, part)[i] in s
    ensures part in Relinked(s, part)
    ensures forall i | 0 <= i < |Minus(s, part)| :: Minus(s, part)[i] in s
  {
    hide Slots, InsertPos, With, Index, Minus;
    var o := Minus(s, part);
    MinusMembers(s, part);
    WithMembers(o, InsertPos(Slots(o), part.geom.end), part);
    assert forall p | p in Relinked(s, part) :: p in s;
  }

  /** The first half: part is unlinked, and ready to be linked again. */
  method TakeOut(d: Disk, part: Partition)
    requires d.Shape() && part in d.List(part.ptype.logical)
    modifies d`partList, d`prims, d`logs, d.Nodes()`prev, d.Nodes()`next, d.Owner()`partList
    ensures d.Detached() && Linkable(d, part)
    ensures d.List(part.ptype.logical) == Minus(old(d.List(part.ptype.logical)), part)
    ensures d.List(!part.ptype.logical) == old(d.List(!part.ptype.logical))
    ensures d.List(part.ptype.logical) == [] ==> part.prev == null && part.next == null
    ensures part != d.ext && d.ext != null ==> d.ext in d.prims
  {
    RawRemove(d, part);
  }

  /** Unlinking and linking again puts a moved partition where it now belongs. */
  method Relink(d: Disk, part: Partition)
    requires d.Shape() && IsStripped(d) && part in d.List(part.ptype.logical)
    modifies d`partList, d`prims, d`logs, d`ext, d.Nodes()`prev, d.Nodes()`next, d.Owner()`partList
    ensures d.Shape() && IsStripped(d) && d.ext == old(d.ext)
    ensures d.List(part.ptype.logical) == Relinked(old(d.List(part.ptype.logical)), part)
    ensures d.List(!part.ptype.logical) == old(d.List(!part.ptype.logical))
    ensures d.Nodes() <= old(d.Nodes())
  {
    hide Slots, InsertPos, Index, With, Minus, Disk.Detached;
    ghost var s := d.List(part.ptype.logical);
    RelinkedMembers(s, part);
    OwnerFacts(d);
    TakeOut(d, part);
    ghost var o := d.List(part.ptype.logical);
    label L:
    RawAdd(d, part);
    SlotsKept@L(o);
    WithMembers(o, InsertPos(Slots(o), part.geom.end), part);
    RelinkedMembers(s, part);
  }

  lemma RelinkedTable(s: seq<Partition>, part: Partition)
    requires part in s
    ensures Slots(Relinked(s, part)) == Insert(Without(Slots(s), Index(s, part)), SlotOf(part))
  {
    hide Slots, InsertPos, Without, With;
    var k := Index(s, part);
    var o := Without(s, k);
    SlotsWithout(s, k);
    SlotsWith(o, InsertPos(Slots(o), part.geom.end), part);
  }

  lemma RelinkedIsMoved(d: Disk, s: seq<Partition>, part: Partition, t: Table)
    requires part in s && d.List(part.ptype.logical) == Relinked(s, part)
    requires t.length == d.length && t.Siblings(part.ptype.logical) == Slots(s)
    requires t.Siblings(!part.ptype.logical) == Slots(d.List(!part.ptype.logical))
    ensures d.TableOf() == Moved(t, part.ptype.logical, Index(s, part), part.geom)
  {
    hide Slots, InsertPos, Without, With, Relinked;
    RelinkedTable(s, part);
    assert Slots(s)[Index(s, part)] == SlotOf(part);
  }

  /** ped_disk_set_partition_geom between its push and its pop. */
  method MovePushed(d: Disk, part: Partition, c: Option<Constraint>, g: Geom, a: Answers) returns (ok: bool)
    requires d.Shape() && d.updateMode > 0 && IsStripped(d) && part in d.List(part.ptype.logical) && g.Valid()
    modifies d`partList, d`prims, d`logs, d`ext, d.Nodes()`prev, d.Nodes()`next,
             d.Owner()`partList, part`geom
    ensures d.Shape() && IsStripped(d) && d.ext == old(d.ext) && d.Nodes() <= old(d.Nodes())
    ensures var k := Index(old(d.List(part.ptype.logical)), part);
            var v := MoveVerdict(old(d.TableOf()), part.ptype, k, g, c, d.needsClobber, a);
      && ok == v.Placed?
      && part.geom == GeomAt(v, old(part.geom), g)
      && d.TableOf() == if ok then Moved(old(d.TableOf()), part.ptype.logical, k, v.geom)
                        else Regeom(old(d.TableOf()), part.ptype.logical, k, part.geom)
    ensures d.List(part.ptype.logical)
         == var s := old(d.List(part.ptype.logical)); if ok then Relinked(s, part) else s
    ensures d.List(!part.ptype.logical) == old(d.List(!part.ptype.logical))
  {
    hide Disk.Shape, Disk.TableOf, MoveVerdict, Regeom, Slots, Moved, Index, Relinked;
    ghost var logical := part.ptype.logical;
    ghost var s, other, t := d.List(logical), d.List(!logical), d.TableOf();
    ghost var k := Index(s, part);
    TableHas(d, logical, k);
    ok := SettleMove(d, part, c, g, a);
    if ok {
      MovedRegeom(t, logical, k, part.geom);
      ghost var u := d.TableOf();
      TableLists(d, logical);
      label L:
      Relink(d, part);
      SlotsKept@L(s);
      SlotsKept@L(other);
      RelinkedIsMoved(d, s, part, u);
    }
  }

  lemma TableLists(d: Disk, logical: bool)
    ensures d.TableOf().Siblings(logical) == Slots(d.List(logical))
    ensures d.TableOf().Siblings(!logical) == Slots(d.List(!logical))
    ensures d.TableOf().length == d.length
  {
  }

  lemma CoreMembers(d: Disk, logical: bool)
    ensures forall p | p in CoreList(d, logical) :: p in d.List(logical)
    ensures d.CoreOf().Siblings(logical) == Slots(CoreList(d, logical))
    ensures d.CoreOf().Siblings(!logical) == Slots(CoreList(d, !logical))
    ensures d.CoreOf().length == d.length
  {
  }

  /** The placeholders of d are those of the table in which part lies at g.
      With g the actual geometry of part this says that d is filled. */
  ghost predicate IsFilledFor(d: Disk, part: Partition, g: Geom)
    requires part in CoreList(d, part.ptype.logical)
    reads d`prims, d`logs, d.prims`geom, d.logs`geom
  {
    var logical := part.ptype.logical;
    Regeom(d.TableOf(), logical, Index(d.List(logical), part), g)
    == Filled(Regeom(d.CoreOf(), logical, Index(CoreList(d, logical), part), g))
  }

  /** The lists and the table a push leaves, as a value to compare with later. */
  datatype Snapshot = Snapshot(t: Table, own: seq<Partition>, other: seq<Partition>, was: Geom)

  ghost function SnapshotFor(d: Disk, part: Partition): Snapshot
    reads d`prims, d`logs, d`updateMode, d.prims`geom, d.logs`geom, part`geom
  {
    Snapshot(BaseTable(d), BaseList(d, part.ptype.logical), BaseList(d, !part.ptype.logical), part.geom)
  }

  ghost function VerdictFor(n: Snapshot, d: Disk, part: Partition, g: Geom, c: Option<Constraint>, a: Answers): Verdict
    requires part in n.own
    reads d`needsClobber
  {
    MoveVerdict(n.t, part.ptype, Index(n.own, part), g, c, d.needsClobber, a)
  }

  /** What has become of a move with verdict v: in the lists own and other,
      part is relinked on success, and nothing is otherwise; geom is where the
      table t sees it. */
  ghost predicate MoveOutcome(own: seq<Partition>, other: seq<Partition>, t: Table, part: Partition, n: Snapshot,
      v: Verdict, geom: Geom)
    requires part in n.own
    reads part`geom, n.own`geom
  {
    var logical := part.ptype.logical;
    && part.geom == geom
    && own == (if v.Placed? then Relinked(n.own, part) else n.own)
    && other == n.other
    && Index(n.own, part) < |n.t.Siblings(logical)|
    && t == (if v.Placed? then Moved(n.t, logical, Index(n.own, part), geom)
             else Regeom(n.t, logical, Index(n.own, part), geom))
  }

  /** Push and move. */
  method PushAndMove(d: Disk, part: Partition, c: Option<Constraint>, g: Geom, a: Answers, ghost n: Snapshot)
      returns (ok: bool)
    requires d.Shape() && (d.updateMode > 0 ==> IsStripped(d)) && g.Valid()
    requires n == SnapshotFor(d, part) && part in n.own
    modifies d`updateMode, d`partList, d`prims, d`logs, d`ext, d.Nodes()`prev, d.Nodes()`next,
             d.Owner()`partList, part`geom
    ensures d.Shape() && IsStripped(d) && d.ext == old(d.ext) && d.updateMode == old(d.updateMode) + 1
    ensures d.Nodes() <= old(d.Nodes())
    ensures var v := VerdictFor(n, d, part, g, c, a);
      && ok == v.Placed?
      && MoveOutcome(d.List(part.ptype.logical), d.List(!part.ptype.logical), d.TableOf(), part, n, v,
                     GeomAt(v, n.was, g))
  {
    hide Disk.Shape, Disk.TableOf, Disk.Nodes, BaseTable, Filter, MoveVerdict, Regeom, Moved, Slots, Index, Relinked,
        IsStripped;
    Push(d);
    PushedTable(d);
    TableHas(d, part.ptype.logical, Index(n.own, part));
    ok := MovePushed(d, part, c, g, a);
  }

  /** Push, move, pop: what SetPartitionGeom does before it restores a geometry. */
  method MoveOrReject(d: Disk, part: Partition, c: Option<Constraint>, g: Geom, a: Answers, ghost n: Snapshot)
      returns (ok: bool, ghost made: set<Partition>)
    requires d.Shape() && (d.updateMode > 0 ==> IsStripped(d)) && g.Valid()
    requires n == SnapshotFor(d, part) && part in n.own
    modifies d`updateMode, d`partList, d`prims, d`logs, d`ext, d.Nodes()`prev, d.Nodes()`next,
             d.Owner()`partList, part`geom
    ensures d.Shape() && d.ext == old(d.ext) && d.updateMode == old(d.updateMode)
    ensures fresh(made) && d.Nodes() <= old(d.Nodes()) + made && (d.updateMode > 0 ==> made == {})
    ensures IsSettled(d)
    ensures var v := VerdictFor(n, d, part, g, c, a);
      && ok == v.Placed?
      && MoveOutcome(CoreList(d, part.ptype.logical), CoreList(d, !part.ptype.logical), d.CoreOf(), part, n, v,
          GeomAt(v, n.was, g))
  {
    hide Disk.Shape, Disk.TableOf, Disk.CoreOf, Disk.Nodes, Filter, IsFilled, VerdictFor, MoveOutcome, GeomAt,
        SnapshotFor, IsStripped;
    ok := PushAndMove(d, part, c, g, a, n);
    label M:
    made := Pop(d);
    PoppedCore@M(d);
  }

  lemma CoreHas(d: Disk, part: Partition)
    requires part in CoreList(d, part.ptype.logical)
    ensures var k := Index(CoreList(d, part.ptype.logical), part);
      k < |d.CoreOf().Siblings(part.ptype.logical)| && d.CoreOf().Siblings(part.ptype.logical)[k] == SlotOf(part)
    ensures part in d.List(part.ptype.logical)
  {
  }

  /** Index k of a list of nodes. */
  datatype Cell = Cell(s: seq<Partition>, k: nat)

  twostate lemma SlotsButOne(w: Cell)
    requires w.k < |w.s| && Distinct(w.s)
    requires forall p | p in w.s && p != w.s[w.k] :: p.geom == old(p.geom)
    ensures Slots(w.s) == old(Slots(w.s))[w.k := old(Slots(w.s))[w.k].(geom := w.s[w.k].geom)]
  {
  }

  /** Restoring a geometry: the placeholders stay those of the other one. */
  method RestoreGeom(d: Disk, part: Partition, was: Geom)
    requires d.Shape() && part in CoreList(d, part.ptype.logical)
    modifies part`geom
    ensures d.Shape() && part.geom == was
    ensures d.CoreOf() == Regeom(old(d.CoreOf()), part.ptype.logical, Index(CoreList(d, part.ptype.logical), part), was)
    ensures old(IsFilled(d)) ==> IsFilledFor(d, part, old(part.geom))
  {
    hide Disk.Shape, Disk.TableOf, Index, Filter, Slots;
    ghost var logical, rejected := part.ptype.logical, part.geom;
    ghost var k, c := Index(d.List(logical), part), Index(CoreList(d, logical), part);
    SelfFacts(d, part);
    FilterDistinct(IsUsedNode, d.List(logical));
    TableHas(d, logical, k);
    CoreHas(d, part);
    RegeomTwice(d.TableOf(), logical, k, rejected, rejected);
    RegeomTwice(d.CoreOf(), logical, c, rejected, rejected);
    RegeomTwice(d.TableOf(), logical, k, was, rejected);
    RegeomTwice(d.CoreOf(), logical, c, was, rejected);
    part.geom := was;
    ShapeKept(d);
    RegeomKept(Where(d, logical, k));
    SlotsKept(CoreList(d, !logical));
    SlotsButOne(Cell(CoreList(d, logical), c));
  }

  lemma SnapshotFacts(d: Disk, part: Partition, n: Snapshot)
    requires n == SnapshotFor(d, part) && part in n.own
    ensures var k := Index(n.own, part);
      k < |n.t.Siblings(part.ptype.logical)| && n.t.Siblings(part.ptype.logical)[k] == Slot(part.ptype, n.was)
    ensures n.was == part.geom
  {
  }

  lemma RelinkedHas(n: Snapshot, part: Partition)
    requires part in n.own
    ensures part in Relinked(n.own, part)
  {
    RelinkedMembers(n.own, part);
  }

  /** ped_disk_set_partition_geom.  A failing call restores the geometry, but
      after it has left update mode: the placeholders it leaves are those of
      the geometry it rejected. */
  method SetPartitionGeom(d: Disk, part: Partition, c: Option<Constraint>, start: int, end: int, a: Answers)
      returns (ok: bool, ghost made: set<Partition>)
    requires d.Shape() && (d.updateMode > 0 ==> IsStripped(d)) && part in BaseList(d, part.ptype.logical)
    requires start >= 0
    modifies d`updateMode, d`partList, d`prims, d`logs, d`ext, d.Nodes()`prev, d.Nodes()`next,
             d.Owner()`partList, part`geom
    ensures d.Shape() && d.ext == old(d.ext) && d.updateMode == old(d.updateMode)
    ensures fresh(made) && d.Nodes() <= old(d.Nodes()) + made && (d.updateMode > 0 ==> made == {})
    ensures d.updateMode > 0 ==> IsStripped(d)
    ensures start > end ==> !ok && d.prims == old(d.prims) && d.logs == old(d.logs) && part.geom == old(part.geom)
    ensures start <= end ==>
      var n, g := old(SnapshotFor(d, part)), Geom(start, end);
      var v := VerdictFor(n, d, part, g, c, a);
      && ok == v.Placed?
      && MoveOutcome(CoreList(d, part.ptype.logical), CoreList(d, !part.ptype.logical), d.CoreOf(), part, n, v,
                     if ok then v.geom else n.was)
      && (!ok ==> d.CoreOf() == n.t)
      && part in CoreList(d, part.ptype.logical)
      && (d.updateMode == 0 ==> if ok then IsFilled(d) else IsFilledFor(d, part, GeomAt(v, n.was, g)))
  {
    hide Disk.Shape, Disk.TableOf, Disk.CoreOf, Disk.Nodes, CoreList, SnapshotFor, VerdictFor, IsFilled, IsFilledFor,
        MoveOutcome, GeomAt, IsStripped;
    made := {};
    if start > end {
      return false, {};
    }
    ghost var n := SnapshotFor(d, part);
    SnapshotOwn(d, part);
    ok, made := SetInOrder(d, part, c, Geom(start, end), a, n);
  }

  /** The same, for a start that is not behind the end. */
  method SetInOrder(d: Disk, part: Partition, c: Option<Constraint>, g: Geom, a: Answers, ghost n: Snapshot)
      returns (ok: bool, ghost made: set<Partition>)
    requires d.Shape() && (d.updateMode > 0 ==> IsStripped(d)) && g.Valid()
    requires n == SnapshotFor(d, part) && part in n.own
    modifies d`updateMode, d`partList, d`prims, d`logs, d`ext, d.Nodes()`prev, d.Nodes()`next,
             d.Owner()`partList, part`geom
    ensures d.Shape() && d.ext == old(d.ext) && d.updateMode == old(d.updateMode)
    ensures fresh(made) && d.Nodes() <= old(d.Nodes()) + made && (d.updateMode > 0 ==> made == {})
    ensures d.updateMode > 0 ==> IsStripped(d)
    ensures var v := VerdictFor(n, d, part, g, c, a);
      && ok == v.Placed?
      && MoveOutcome(CoreList(d, part.ptype.logical), CoreList(d, !part.ptype.logical), d.CoreOf(), part, n, v,
                     if ok then v.geom else n.was)
      && (!ok ==> d.CoreOf() == n.t)
      && part in CoreList(d, part.ptype.logical)
      && (d.updateMode == 0 ==> if ok then IsFilled(d) else IsFilledFor(d, part, GeomAt(v, n.was, g)))
  {
    hide Disk.Shape, Disk.TableOf, Disk.CoreOf, Disk.Nodes, CoreList, SnapshotFor, VerdictFor, IsFilled, IsFilledFor,
        MoveOutcome, IsStripped, Index;
    SnapshotFacts(d, part, n);
    var was := part.geom;
    ok, made := MoveOrReject(d, part, c, g, a, n);
    ghost var v := VerdictFor(n, d, part, g, c, a);
    if ok {
      OutcomeHas(CoreList(d, part.ptype.logical), CoreList(d, !part.ptype.logical), d.CoreOf(), part, n, v, v.geom);
    } else {
      PutBack(d, part, was, n, v, GeomAt(v, n.was, g));
    }
  }

  /** The old geometry of a partition that could not be moved, after the pop. */
  method PutBack(d: Disk, part: Partition, was: Geom, ghost n: Snapshot, ghost v: Verdict, ghost g: Geom)
    requires d.Shape() && IsSettled(d) && part in n.own && !v.Placed? && was == n.was
    requires MoveOutcome(CoreList(d, part.ptype.logical), CoreList(d, !part.ptype.logical), d.CoreOf(), part, n, v, g)
    requires var k := Index(n.own, part);
      k < |n.t.Siblings(part.ptype.logical)| && n.t.Siblings(part.ptype.logical)[k] == Slot(part.ptype, n.was)
    modifies part`geom
    ensures d.Shape() && (d.updateMode > 0 ==> IsStripped(d))
    ensures d.CoreOf() == n.t && part in CoreList(d, part.ptype.logical)
    ensures MoveOutcome(CoreList(d, part.ptype.logical), CoreList(d, !part.ptype.logical), d.CoreOf(), part, n, v,
        n.was)
    ensures d.updateMode == 0 ==> IsFilledFor(d, part, g)
  {
    hide Disk.Shape, Disk.TableOf, Disk.CoreOf, CoreList, IsFilled, IsFilledFor, Regeom, Index, IsStripped;
    RegeomTwice(n.t, part.ptype.logical, Index(n.own, part), g, was);
    RegeomTwice(n.t, part.ptype.logical, Index(n.own, part), was, was);
    RestoreGeom(d, part, was);
  }

  lemma OutcomeHas(own: seq<Partition>, other: seq<Partition>, t: Table, part: Partition, n: Snapshot, v: Verdict,
      g: Geom)
    requires part in n.own && MoveOutcome(own, other, t, part, n, v, g)
    ensures part in own
  {
    RelinkedHas(n, part);
  }

  lemma SnapshotOwn(d: Disk, part: Partition)
    ensures SnapshotFor(d, part).own == BaseList(d, part.ptype.logical)
    ensures SnapshotFor(d, part).t == BaseTable(d)
    ensures SnapshotFor(d, part).was == part.geom
  {
  }
}
