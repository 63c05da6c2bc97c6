// Growing and shrinking: ped_disk_maximize_partition,
// ped_disk_get_max_partition_geometry, ped_disk_minimize_extended_partition.

module Resizing {
  import opened Common
  import opened Geometry
  import opened Layout
  import opened Placement
  import opened Soundness
  import opened Nodes
  import opened Disks
  import opened Traversal
  import opened FreeSpace
  import opened UpdateMode
  import opened Edits

  /** The request ped_disk_maximize_partition makes: from its left neighbour to
      its right one, or to the end of the room. */
  function MaxRequest(t: Table, logical: bool, k: nat): Geom
    requires k < |t.Siblings(logical)|
  {
    var s, b := t.Siblings(logical), Bounds(t, logical);
    Geom(if k > 0 then s[k - 1].geom.end + 1 else b.start,
         if k + 1 < |s| then s[k + 1].geom.start - 1 else b.end)
  }

  /** That request is the largest geometry around the partition that fits. */
  lemma MaxRequestIsLargest(t: Table, logical: bool, k: nat, h: Geom)
    requires Sound(t) && k < |t.Siblings(logical)| && (logical ==> t.Ext().Some? && t.Ext().value.start >= 0)
    requires t.Siblings(logical)[k].geom.Inside(h)
    ensures Fits(t, logical, k, MaxRequest(t, logical, k))
    ensures t.Siblings(logical)[k].geom.Inside(MaxRequest(t, logical, k))
    ensures Fits(t, logical, k, h) ==> h.Inside(MaxRequest(t, logical, k))
  {
    hide ExtIndex, FreeOfOthers;
    var s, b, g := t.Siblings(logical), Bounds(t, logical), MaxRequest(t, logical, k);
    assert Ordered(s, b.start, b.end);
    hide Ordered, Sound;
    MemberIn(s, k, b.start, b.end);
    BetweenNeighbours(s, k, b.start, b.end, g);
    if Fits(t, logical, k, h) {
      BetweenNeighbours(s, k, b.start, b.end, h);
    }
  }

  /** The geometries around member k that are free of the others are those
      between its neighbours. */
  lemma BetweenNeighbours(s: seq<Slot>, k: nat, lo: int, hi: int, h: Geom)
    requires Ordered(s, lo, hi) && k < |s| && s[k].geom.Inside(h) && h.Inside(Geom(lo, hi))
    ensures FreeOfOthers(s, k, h) <==>
      && (k > 0 ==> s[k - 1].geom.end < h.start)
      && (k + 1 < |s| ==> h.end < s[k + 1].geom.start)
  {
    if FreeOfOthers(s, k, h) {
      assert k > 0 ==> s[k - 1].geom.Disjoint(h);
      assert k + 1 < |s| ==> s[k + 1].geom.Disjoint(h);
    }
  }

  lemma StrippedCore(d: Disk)
    requires IsStripped(d)
    ensures CoreList(d, true) == d.logs && CoreList(d, false) == d.prims && d.CoreOf() == d.TableOf()
  {
    FilterAll(IsUsedNode, d.prims);
    FilterAll(IsUsedNode, d.logs);
  }

  /** In update mode a snapshot shows the lists as they are. */
  lemma SnapshotPushed(d: Disk, part: Partition, n: Snapshot)
    requires d.updateMode > 0
    ensures SnapshotFor(d, part) == n <==>
      && n.own == d.List(part.ptype.logical) && n.other == d.List(!part.ptype.logical)
      && n.t == d.TableOf() && n.was == part.geom
  {
  }

  /** A nested set_partition_geom: nothing is left behind by a failing one. */
  method SetGeomPushed(d: Disk, part: Partition, c: Option<Constraint>, start: int, end: int, a: Answers,
      ghost n: Snapshot)
      returns (ok: bool)
    requires d.Shape() && d.updateMode > 0 && IsStripped(d) && start >= 0
    requires n == SnapshotFor(d, part) && part in n.own
    modifies d`updateMode, d`partList, d`prims, d`logs, d`ext, d.Nodes()`prev, d.Nodes()`next,
             d.Owner()`partList, part`geom
    ensures d.Shape() && IsStripped(d) && d.ext == old(d.ext) && d.updateMode == old(d.updateMode)
    ensures d.Nodes() <= old(d.Nodes())
    ensures ok <==> start <= end && VerdictFor(n, d, part, Geom(start, end), c, a).Placed?
    ensures ok ==>
      var v := VerdictFor(n, d, part, Geom(start, end), c, a);
      MoveOutcome(d.List(part.ptype.logical), d.List(!part.ptype.logical), d.TableOf(), part, n, v, v.geom)
    ensures !ok ==> SnapshotFor(d, part) == n
  {
    hide Disk.Shape, Disk.TableOf, Disk.CoreOf, Disk.Nodes, BaseTable, VerdictFor, SnapshotFor, IsStripped, IsFilledFor;
    SnapshotPushed(d, part, n);
    ghost var m;
    ok, m := SetPartitionGeom(d, part, c, start, end, a);
    StrippedCore(d);
    SnapshotPushed(d, part, n);
    if start > end {
      TableKept(d);
    }
  }

  /** ped_disk_maximize_partition between its push and its pop: on failure it
      asks for the old geometry back, subject to no constraint. */
  method MaximizePushed(d: Disk, part: Partition, c: Option<Constraint>, lo: int, hi: int, a1: Answers, a2: Answers,
      ghost n: Snapshot)
      returns (ok: bool)
    requires d.Shape() && d.updateMode > 0 && IsStripped(d) && lo >= 0 && part.geom.Valid()
    requires n == SnapshotFor(d, part) && part in n.own
    modifies d`updateMode, d`partList, d`prims, d`logs, d`ext, d.Nodes()`prev, d.Nodes()`next,
             d.Owner()`partList, part`geom
    ensures d.Shape() && IsStripped(d) && d.ext == old(d.ext) && d.updateMode == old(d.updateMode)
    ensures d.Nodes() <= old(d.Nodes())
    ensures ok <==> lo <= hi && VerdictFor(n, d, part, Geom(lo, hi), c, a1).Placed?
    ensures ok ==>
      var v := VerdictFor(n, d, part, Geom(lo, hi), c, a1);
      MoveOutcome(d.List(part.ptype.logical), d.List(!part.ptype.logical), d.TableOf(), part, n, v, v.geom)
    ensures !ok ==>
      var v := VerdictFor(n, d, part, n.was, Some(ConstraintAny(d.length)), a2);
      if v.Placed? then
        MoveOutcome(d.List(part.ptype.logical), d.List(!part.ptype.logical), d.TableOf(), part, n, v, v.geom)
      else SnapshotFor(d, part) == n
  {
    hide Disk.Shape, Disk.TableOf, Disk.Nodes, VerdictFor, SnapshotFor, IsStripped, MoveOutcome;
    var was := part.geom;
    SnapshotOwn(d, part);
    ok := SetGeomPushed(d, part, c, lo, hi, a1, n);
    if !ok {
      var again := SetGeomPushed(d, part, Some(ConstraintAny(d.length)), was.start, was.end, a2, n);
    }
  }

  /** What ped_geometry_set guarantees of every linked partition. */
  ghost predicate ValidGeoms(d: Disk)
    reads d`prims, d`logs, d`updateMode, d.prims`geom, d.logs`geom
  {
    && (forall p | p in BaseList(d, false) :: p.geom.Valid())
    && (forall p | p in BaseList(d, true) :: p.geom.Valid())
  }

  /** The links of part lead to its neighbours. */
  lemma Neighbours(d: Disk, part: Partition)
    requires d.Shape() && part in d.List(part.ptype.logical)
    ensures var s, k := d.List(part.ptype.logical), Index(d.List(part.ptype.logical), part);
      && part.prev == (if k == 0 then null else s[k - 1])
      && part.next == (if k + 1 == |s| then null else s[k + 1])
  {
    OwnerFacts(d);
    hide Disk.Shape, Index;
    var s, k := d.List(part.ptype.logical), Index(d.List(part.ptype.logical), part);
    assert s[k].prev == part.prev && s[k].next == part.next;
  }

  lemma NeighbourEnds(d: Disk, s: seq<Partition>, k: nat, logical: bool, b: Geom)
    requires k < |s| && s == d.List(logical) && b == Bounds(d.TableOf(), logical)
    ensures k < |d.TableOf().Siblings(logical)|
    ensures MaxRequest(d.TableOf(), logical, k)
         == Geom(if k == 0 then b.start else s[k - 1].geom.end + 1, if k + 1
             == |s| then b.end else s[k + 1].geom.start - 1)
  {
    hide Slots, ExtIndex;
  }

  lemma BaseIsList(d: Disk, logical: bool)
    requires d.updateMode > 0 && ValidGeoms(d)
    ensures forall i :: 0 <= i < |d.List(logical)| ==> d.List(logical)[i].geom.Valid()
  {
  }

  /** The range between the neighbours of part, or the ends lo and hi of the room. */
  method NeighbourRange(d: Disk, part: Partition, lo: int, hi: int) returns (start: int, end: int)
    requires d.Shape() && d.updateMode > 0 && ValidGeoms(d) && part in d.List(part.ptype.logical)
    requires lo >= 0 && Geom(lo, hi) == Bounds(d.TableOf(), part.ptype.logical)
    ensures Geom(start, end)
         == MaxRequest(d.TableOf(), part.ptype.logical, Index(d.List(part.ptype.logical), part))
    ensures start >= 0
  {
    hide Disk.Shape, Disk.TableOf, Slots, ExtIndex, Index, MaxRequest, ValidGeoms, Bounds;
    ghost var s, k := d.List(part.ptype.logical), Index(d.List(part.ptype.logical), part);
    Neighbours(d, part);
    BaseIsList(d, part.ptype.logical);
    NeighbourEnds(d, s, k, part.ptype.logical, Geom(lo, hi));
    start, end := EndsBetween(part, s, k, lo, hi);
  }

  /** Read off the links of part, which is node k of s. */
  method EndsBetween(part: Partition, ghost s: seq<Partition>, ghost k: nat, lo: int, hi: int)
      returns (start: int, end: int)
    requires k < |s| && part.prev == (if k == 0 then null else s[k - 1])
        && part.next == (if k + 1 == |s| then null else s[k + 1])
    ensures start == if k == 0 then lo else s[k - 1].geom.end + 1
    ensures end == if k + 1 == |s| then hi else s[k + 1].geom.start - 1
  {
    start := if part.prev != null then part.prev.geom.end + 1 else lo;
    end := if part.next != null then part.next.geom.start - 1 else hi;
  }

  /** The ends of the room a partition may be grown in. */
  method GlobalRange(d: Disk, part: Partition) returns (lo: int, hi: int)
    requires d.Shape() && (part.ptype.logical ==> d.ext != null)
    ensures Geom(lo, hi) == if part.ptype.logical then d.ext.geom else Geom(0, d.length - 1)
    ensures d.Shape()
  {
    hide Disk.Shape;
    OwnerFacts(d);
    var e := ExtendedPartition(d);
    ShapeKept(d);
    if part.ptype.logical {
      return e.geom.start, e.geom.end;
    }
    return 0, d.length - 1;
  }

  /** What maximizing leaves, and when it succeeds. */
  ghost predicate MaximizeOutcome(d: Disk, own: seq<Partition>, other: seq<Partition>, t: Table, part: Partition,
                                  n: Snapshot, c: Option<Constraint>, a1: Answers, a2: Answers, ok: bool)
    requires part in n.own && Index(n.own, part) < |n.t.Siblings(part.ptype.logical)|
    reads d`needsClobber, part`geom, n.own`geom
  {
    var g := MaxRequest(n.t, part.ptype.logical, Index(n.own, part));
    var v1 := VerdictFor(n, d, part, g, c, a1);
    var v2 := VerdictFor(n, d, part, n.was, Some(ConstraintAny(d.length)), a2);
    && (ok <==> g.start <= g.end && v1.Placed?)
    && (ok ==> MoveOutcome(own, other, t, part, n, v1, v1.geom))
    && (!ok && v2.Placed? ==> MoveOutcome(own, other, t, part, n, v2, v2.geom))
    && (!ok && !v2.Placed? ==> own == n.own && other == n.other && t == n.t && part.geom == n.was)
  }

  /** Maximizing inside update mode, between the neighbours found there. */
  method MaximizeInside(d: Disk, part: Partition, c: Option<Constraint>, lo: int, hi: int, a1: Answers, a2: Answers,
      ghost n: Snapshot)
      returns (ok: bool)
    requires d.Shape() && d.updateMode > 0 && IsStripped(d) && ValidGeoms(d)
    requires n == SnapshotFor(d, part) && part in n.own && lo >= 0
    requires Index(n.own, part) < |n.t.Siblings(part.ptype.logical)| && Geom(lo, hi) == Bounds(n.t, part.ptype.logical)
    modifies d`updateMode, d`partList, d`prims, d`logs, d`ext, d.Nodes()`prev, d.Nodes()`next,
             d.Owner()`partList, part`geom
    ensures d.Shape() && IsStripped(d) && d.ext == old(d.ext) && d.updateMode == old(d.updateMode)
    ensures d.Nodes() <= old(d.Nodes())
    ensures MaximizeOutcome(d, d.List(part.ptype.logical), d.List(!part.ptype.logical), d.TableOf(), part, n, c, a1,
        a2, ok)
  {
    hide Disk.Shape, Disk.TableOf, Disk.Nodes, BaseTable, VerdictFor, SnapshotFor, IsStripped, MoveOutcome,
        MaxRequest, Slots;
    SnapshotPushed(d, part, n);
    SelfValid(d, part);
    var start, end := NeighbourRange(d, part, lo, hi);
    ShapeKept(d);
    TableKept(d);
    SnapshotPushed(d, part, n);
    ok := MaximizePushed(d, part, c, start, end, a1, a2, n);
    SnapshotPushed(d, part, n);
  }

  lemma SelfValid(d: Disk, part: Partition)
    requires d.updateMode > 0 && ValidGeoms(d) && part in d.List(part.ptype.logical)
    ensures part.geom.Valid()
  {
  }

  /** A push, seen from a partition about to be edited. */
  method PushFor(d: Disk, part: Partition, ghost n: Snapshot)
    requires d.Shape() && (d.updateMode > 0 ==> IsStripped(d)) && ValidGeoms(d)
    requires n == SnapshotFor(d, part)
    modifies d`updateMode, d`partList, d`prims, d`logs, d`ext, d.Nodes()`prev, d.Nodes()`next, d.Owner()`partList
    ensures d.Shape() && IsStripped(d) && ValidGeoms(d) && d.ext == old(d.ext)
    ensures d.updateMode == old(d.updateMode) + 1 && d.Nodes() <= old(d.Nodes())
    ensures SnapshotFor(d, part) == n
  {
    hide Disk.Shape, Disk.TableOf, Disk.Nodes, BaseTable, IsStripped;
    Push(d);
    PushedTable(d);
    SnapshotPushed(d, part, n);
  }

  lemma RoomIsBounds(d: Disk, part: Partition, n: Snapshot)
    requires d.Shape() && d.updateMode > 0 && ValidGeoms(d) && n == SnapshotFor(d, part) && part in n.own
    ensures Bounds(n.t, part.ptype.logical).start >= 0
    ensures Index(n.own, part) < |n.t.Siblings(part.ptype.logical)|
    ensures part.ptype.logical ==> d.ext != null
    ensures Bounds(n.t, part.ptype.logical)
         == if part.ptype.logical then d.ext.geom else Geom(0, d.length - 1)
  {
    hide Disk.Shape, Slots, ExtIndex, Index;
    OwnerFacts(d);
    SelfFacts(d, part);
  }

  /** The arguments of MaximizeOutcome, for the two-state lemma below. */
  datatype MaximizeCase = MaximizeCase(
      d: Disk, own: seq<Partition>, other: seq<Partition>, t: Table, part: Partition,
      n: Snapshot, c: Option<Constraint>, a1: Answers, a2: Answers, ok: bool) {

    ghost predicate Holds()
      reads d`needsClobber, part`geom, n.own`geom
    {
      && part in n.own && Index(n.own, part) < |n.t.Siblings(part.ptype.logical)|
      && MaximizeOutcome(d, own, other, t, part, n, c, a1, a2, ok)
    }
  }

  /** It speaks of geometries only. */
  twostate lemma MaximizeKept(w: MaximizeCase)
    requires old(w.Holds()) && w.d.needsClobber == old(w.d.needsClobber)
    requires forall p | p in w.n.own :: p.geom == old(p.geom)
    ensures w.Holds()
  {
    hide Slots, InsertPos, Moved, Regeom, MoveVerdict, MaxRequest, Index;
    var o := Minus(w.n.own, w.part);
    assert forall i | 0 <= i < |o| :: o[i] in w.n.own;
    SlotsKept(o);
  }

  /** Push, maximize, pop. */
  method MaximizeAndPop(d: Disk, part: Partition, c: Option<Constraint>, lo: int, hi: int, a1: Answers, a2: Answers,
      ghost n: Snapshot)
      returns (ok: bool, ghost made: set<Partition>)
    requires d.Shape() && (d.updateMode > 0 ==> IsStripped(d)) && ValidGeoms(d)
    requires n == SnapshotFor(d, part) && part in n.own
    requires part.ptype.logical ==> d.ext != null
    requires Geom(lo, hi) == if part.ptype.logical then d.ext.geom else Geom(0, d.length - 1)
    modifies d`updateMode, d`partList, d`prims, d`logs, d`ext, d.Nodes()`prev, d.Nodes()`next,
             d.Owner()`partList, part`geom
    ensures d.Shape() && IsSettled(d) && d.ext == old(d.ext) && d.updateMode == old(d.updateMode)
    ensures fresh(made) && d.Nodes() <= old(d.Nodes()) + made
    ensures MaximizeCase(d, CoreList(d, part.ptype.logical), CoreList(d, !part.ptype.logical), d.CoreOf(), part, n,
        c, a1, a2, ok).Holds()
  {
    hide Disk.Shape, Disk.TableOf, Disk.CoreOf, Disk.Nodes, SnapshotFor, IsFilled, MaximizeOutcome, Filter, Index,
        Bounds;
    PushFor(d, part, n);
    RoomIsBounds(d, part, n);
    ok := MaximizeInside(d, part, c, lo, hi, a1, a2, n);
    ghost var w := MaximizeCase(d, d.List(part.ptype.logical), d.List(!part.ptype.logical), d.TableOf(), part, n, c,
        a1, a2, ok);
    label M:
    made := Pop(d);
    PoppedCore@M(d);
    MaximizeKept@M(w);
  }

  lemma BaseHasOwner(d: Disk, part: Partition)
    requires d.Shape() && part in BaseList(d, part.ptype.logical)
    ensures part.ptype.logical ==> d.ext != null
  {
  }

  /** ped_disk_maximize_partition. */
  method MaximizePartition(d: Disk, part: Partition, c: Option<Constraint>, a1: Answers, a2: Answers)
      returns (ok: bool, ghost made: set<Partition>)
    requires d.Shape() && (d.updateMode > 0 ==> IsStripped(d)) && ValidGeoms(d)
        && part in BaseList(d, part.ptype.logical)
    modifies d`updateMode, d`partList, d`prims, d`logs, d`ext, d.Nodes()`prev, d.Nodes()`next,
             d.Owner()`partList, part`geom
    ensures d.Shape() && IsSettled(d) && d.ext == old(d.ext) && d.updateMode == old(d.updateMode)
    ensures fresh(made) && d.Nodes() <= old(d.Nodes()) + made
    ensures MaximizeCase(d, CoreList(d, part.ptype.logical), CoreList(d, !part.ptype.logical), d.CoreOf(), part,
                         old(SnapshotFor(d, part)), c, a1, a2, ok).Holds()
  {
    hide Disk.Shape, Disk.CoreOf, Disk.Nodes, SnapshotFor, IsStripped, IsFilled, MaximizeCase.Holds, Filter,
        ValidGeoms;
    ghost var n := SnapshotFor(d, part);
    SnapshotOwn(d, part);
    BaseHasOwner(d, part);
    var lo, hi := GlobalRange(d, part);
    ok, made := MaximizeAndPop(d, part, c, lo, hi, a1, a2, n);
  }

  ghost predicate AllActive(s: seq<Partition>) {
    forall i :: 0 <= i < |s| ==> IsActiveNode(s[i])
  }

  lemma {:induction false} ActiveFilter(s: seq<Partition>)
    requires AllActive(Filter(IsUsedNode, s))
    ensures Filter(IsActiveNode, s) == Filter(IsUsedNode, s)
  {
    FilterFilter(IsUsedNode, IsActiveNode, s);
    FilterAll(IsActiveNode, Filter(IsUsedNode, s));
  }

  /** All that an outermost edit of active lists leaves is active again, so the
      next edit starts from what the last one left. */
  lemma NextSnapshot(d: Disk, part: Partition)
    requires d.updateMode > 0 ==> IsStripped(d)
    requires d.updateMode == 0 ==> AllActive(CoreList(d, true)) && AllActive(CoreList(d, false))
    ensures SnapshotFor(d, part)
         == Snapshot(d.CoreOf(), CoreList(d, part.ptype.logical), CoreList(d, !part.ptype.logical), part.geom)
  {
    if d.updateMode == 0 {
      ActiveFilter(d.prims);
      ActiveFilter(d.logs);
    } else {
      StrippedCore(d);
    }
  }

  /** Relinking again finds the same siblings. */
  lemma RelinkedMinus(s: seq<Partition>, part: Partition)
    requires part in s && Distinct(s)
    ensures part in Relinked(s, part) && Minus(Relinked(s, part), part) == Minus(s, part) && part !in Minus(s, part)
    ensures Index(Relinked(s, part), part) == InsertPos(Slots(Minus(s, part)), part.geom.end)
  {
    hide InsertPos, Slots;
    var o := Minus(s, part);
    var k := InsertPos(Slots(o), part.geom.end);
    assert part !in o;
    var r := With(o, k, part);
    assert forall i | 0 <= i < k :: r[i] == o[i];
    WithoutWith(o, k, part);
  }

  /** At its old geometry a partition is relinked into its old place. */
  lemma RelinkedHome(s: seq<Partition>, s': seq<Partition>, part: Partition, t: Table, logical: bool)
    requires part in s && part in s' && Minus(s', part) == Minus(s, part)
    requires Sound(t) && Index(s, part) < |t.Siblings(logical)| && t.Siblings(logical)[Index(s, part)] == SlotOf(part)
    requires Slots(Minus(s, part)) == Without(t.Siblings(logical), Index(s, part))
    ensures Relinked(s', part) == s
  {
    hide InsertPos, Slots, ExtIndex, Ordered;
    var k, b := Index(s, part), Bounds(t, logical);
    assert Ordered(t.Siblings(logical), b.start, b.end);
    InsertBack(t.Siblings(logical), k, b.start, b.end);
    WithWithout(s, k);
  }

  /** The label accepts the geometry g for a partition of that type. */
  predicate LabelAccepts(a: Answers, g: Geom) {
    a.aligned == Some(g) && a.accepted
  }

  /** Going back from v.geom to the old geometry, on snapshots: n before the
      move, n' after it. */
  lemma ExactMoveBack(d: Disk, part: Partition, n: Snapshot, n': Snapshot, v: Verdict, a: Answers)
    requires part in n.own && part in n'.own && v.Placed? && d.needsClobber == false && part.ptype.IsActive()
    requires var k, logical := Index(n.own, part), part.ptype.logical;
      && Sound(n.t) && n.t.length == d.length <= LLONG_MAX
      && k < |n.t.Siblings(logical)| && n.t.Siblings(logical)[k] == Slot(part.ptype, n.was)
      && (logical ==> n.t.Ext().Some?)
      && n'.t == Moved(n.t, logical, k, v.geom) && Sound(n'.t)
      && Index(n'.own, part) == MovedIndex(n.t, logical, k, v.geom)
    ensures var w := VerdictFor(n', d, part, n.was, Some(ConstraintExact(n.was, d.length)), a);
      && (w.Placed? <==> LabelAccepts(a, n.was))
      && (w.Placed? ==> w.geom == n.was && Moved(n'.t, part.ptype.logical, Index(n'.own, part), n.was) == n.t)
      && (!w.Placed? ==> GeomAt(w, v.geom, n.was) == n.was)
  {
    if n.t.Ext().Some? {
      SoundOwner(n.t);
    }
    hide ExtIndex, Sound, Moved, MoveVerdict, InsertPos, Index;
    RestoreVerdict(n.t, part.ptype.logical, Index(n.own, part), v.geom, a);
  }

  /** The snapshot between the two steps of get_max_partition_geometry. */
  lemma BetweenSteps(d: Disk, part: Partition, n: Snapshot, v: Verdict)
    requires d.Shape() && IsSettled(d) && part in n.own && v.Placed? && Distinct(n.own)
    requires MoveOutcome(CoreList(d, part.ptype.logical), CoreList(d, !part.ptype.logical), d.CoreOf(), part, n, v,
        v.geom)
    requires d.updateMode == 0 ==> AllActive(n.own) && AllActive(n.other)
    requires Slots(Minus(n.own, part)) == Without(n.t.Siblings(part.ptype.logical), Index(n.own, part))
    ensures var n' := SnapshotFor(d, part);
      && n'.t == Moved(n.t, part.ptype.logical, Index(n.own, part), v.geom)
      && n'.own == Relinked(n.own, part) && n'.other == n.other && n'.was == v.geom
      && part in n'.own && Minus(n'.own, part) == Minus(n.own, part)
      && Index(n'.own, part) == MovedIndex(n.t, part.ptype.logical, Index(n.own, part), v.geom)
  {
    hide Disk.Shape, Disk.CoreOf, IsFilled, Slots, Moved, InsertPos, SnapshotFor, Relinked, Minus, Index, AllActive,
        CoreList;
    RelinkedMinus(n.own, part);
    if d.updateMode == 0 {
      RelinkedActive(n.own, part);
    }
    NextSnapshot(d, part);
  }

  lemma RelinkedActive(s: seq<Partition>, part: Partition)
    requires part in s && AllActive(s)
    ensures AllActive(Relinked(s, part))
  {
    hide Slots, InsertPos, Minus;
    RelinkedMembers(s, part);
  }

  /** What must hold before get_max_partition_geometry for it to go back. */
  ghost predicate Restorable(d: Disk, part: Partition, n: Snapshot)
    requires part in n.own
    reads d`needsClobber
  {
    var k, logical := Index(n.own, part), part.ptype.logical;
    && Sound(n.t) && n.t.length == d.length <= LLONG_MAX && !d.needsClobber && part.ptype.IsActive()
    && k < |n.t.Siblings(logical)| && n.t.Siblings(logical)[k] == Slot(part.ptype, n.was)
    && (logical ==> n.t.Ext().Some?)
    && n.was.Valid()
  }

  /** What asking for the geometry of snapshot n makes of the table core and the
      list own. */
  ghost predicate BackFrom(d: Disk, part: Partition, n: Snapshot, a: Answers, core: Table, own: seq<Partition>)
    reads d`prims, d`logs, d`updateMode, d.prims`geom, d.logs`geom, part`geom, own`geom
  {
    var logical := part.ptype.logical;
    && part in CoreList(d, logical) && part in own && CoreList(d, !logical) == n.other
    && if LabelAccepts(a, n.was) then
         && d.CoreOf() == n.t && CoreList(d, logical) == Relinked(own, part) && (d.updateMode == 0 ==> IsFilled(d))
       else
         && d.CoreOf() == core && CoreList(d, logical) == own && (d.updateMode == 0 ==> IsFilledFor(d, part, n.was))
  }

  /** Asking for exactly the geometry of snapshot n after a move to v.geom. */
  method RestoreExact(d: Disk, part: Partition, a: Answers, ghost n: Snapshot, was: Geom, ghost v: Verdict)
      returns (ghost made: set<Partition>)
    requires d.Shape() && IsSettled(d) && part in n.own && v.Placed? && Distinct(n.own) && was == n.was && was.Valid()
    requires MoveOutcome(CoreList(d, part.ptype.logical), CoreList(d, !part.ptype.logical), d.CoreOf(), part, n, v,
        v.geom)
    requires d.updateMode == 0 ==> AllActive(n.own) && AllActive(n.other)
    requires Slots(Minus(n.own, part)) == Without(n.t.Siblings(part.ptype.logical), Index(n.own, part))
    modifies d`updateMode, d`partList, d`prims, d`logs, d`ext, d.Nodes()`prev, d.Nodes()`next,
             d.Owner()`partList, part`geom
    ensures d.Shape() && d.updateMode == old(d.updateMode) && (d.updateMode > 0 ==> IsStripped(d))
    ensures d.ext == old(d.ext) && part in CoreList(d, part.ptype.logical)
    ensures fresh(made) && d.Nodes() <= old(d.Nodes()) + made
    ensures Restorable(d, part, n) && Sound(old(d.CoreOf())) ==>
      && part.geom == (if LabelAccepts(a, n.was) then n.was else v.geom)
      && BackFrom(d, part, n, a, old(d.CoreOf()), old(CoreList(d, part.ptype.logical)))
  {
    hide Disk.Shape, Disk.CoreOf, CoreList, IsFilled, Slots, Moved, InsertPos, SnapshotFor, IsFilledFor, VerdictFor,
        Sound, Restorable, Regeom;
    ghost var n' := SnapshotFor(d, part);
    BetweenSteps(d, part, n, v);
    SnapshotOwn(d, part);
    var ok;
    ok, made := SetPartitionGeom(d, part, Some(ConstraintExact(was, d.length)), was.start, was.end, a);
    if Restorable(d, part, n) && Sound(n'.t) {
      ExactMoveBackIf(d, part, n, n', v, a);
    }
  }

  lemma ExactMoveBackIf(d: Disk, part: Partition, n: Snapshot, n': Snapshot, v: Verdict, a: Answers)
    requires part in n.own && part in n'.own && v.Placed? && Restorable(d, part, n) && Sound(n'.t)
    requires n'.t == Moved(n.t, part.ptype.logical, Index(n.own, part), v.geom)
    requires Index(n'.own, part) == MovedIndex(n.t, part.ptype.logical, Index(n.own, part), v.geom)
    ensures var w := VerdictFor(n', d, part, n.was, Some(ConstraintExact(n.was, d.length)), a);
      && (w.Placed? <==> LabelAccepts(a, n.was))
      && (w.Placed? ==> w.geom == n.was) && (!w.Placed? ==> GeomAt(w, v.geom, n.was) == n.was)
    ensures Index(n'.own, part) < |n'.t.Siblings(part.ptype.logical)|
    ensures LabelAccepts(a, n.was) ==> Moved(n'.t, part.ptype.logical, Index(n'.own, part), n.was) == n.t
  {
    hide Sound, Moved, VerdictFor, Index;
    MovedBack(n.t, part.ptype.logical, Index(n.own, part), v.geom);
    ExactMoveBack(d, part, n, n', v, a);
  }

  lemma SnapshotShape(d: Disk, part: Partition)
    requires d.Shape() && part in BaseList(d, part.ptype.logical)
    ensures var n := SnapshotFor(d, part);
      && n.t.Siblings(part.ptype.logical) == Slots(n.own)
      && Distinct(n.own) && part in n.own && part !in Minus(n.own, part)
      && Slots(Minus(n.own, part)) == Without(n.t.Siblings(part.ptype.logical), Index(n.own, part))
      && Index(n.own, part) < |n.t.Siblings(part.ptype.logical)|
      && (d.updateMode == 0 ==> AllActive(n.own) && AllActive(n.other))
  {
    hide Slots, Filter;
    var n := SnapshotFor(d, part);
    assert Distinct(d.List(part.ptype.logical));
    FilterDistinct(IsActiveNode, d.List(part.ptype.logical));
    SlotsWithout(n.own, Index(n.own, part));
  }

  lemma MaximizedSound(d: Disk, part: Partition, n: Snapshot, c: Option<Constraint>, g: Geom, a: Answers)
    requires part in n.own && Restorable(d, part, n)
    requires VerdictFor(n, d, part, g, c, a).Placed?
    requires VerdictFor(n, d, part, g, c, a) == VerdictFor(n, d, part, g, c, a.Strict())
    ensures Sound(Moved(n.t, part.ptype.logical, Index(n.own, part), VerdictFor(n, d, part, g, c, a).geom))
  {
    if n.t.Ext().Some? {
      SoundOwner(n.t);
    }
    hide Sound, Moved, MoveVerdict, ExtIndex, Index;
    MoveKeepsSound(n.t, Index(n.own, part), part.ptype.logical, g, c, a);
  }

  /** When there is a maximum geometry, and which: what the label makes of the
      largest request. */
  ghost predicate IsMaximum(d: Disk, part: Partition, n: Snapshot, c: Option<Constraint>, a: Answers, max: Option<Geom>)
    reads d`needsClobber
  {
    && part in n.own && Index(n.own, part) < |n.t.Siblings(part.ptype.logical)|
    && var g := MaxRequest(n.t, part.ptype.logical, Index(n.own, part));
    var v := VerdictFor(n, d, part, g, c, a);
    max == if g.start <= g.end && v.Placed? then Some(v.geom) else None
  }

  /** Growing does not owe its success to an IGNORE. */
  ghost predicate GrowsStrictly(d: Disk, part: Partition, n: Snapshot, c: Option<Constraint>, a: Answers)
    reads d`needsClobber
  {
    && part in n.own && Index(n.own, part) < |n.t.Siblings(part.ptype.logical)|
    && var g := MaxRequest(n.t, part.ptype.logical, Index(n.own, part));
    VerdictFor(n, d, part, g, c, a) == VerdictFor(n, d, part, g, c, a.Strict())
  }

  /** The first step of get_max_partition_geometry. */
  method GrowFirst(d: Disk, part: Partition, c: Option<Constraint>, a1: Answers, a2: Answers, ghost n: Snapshot)
      returns (ok: bool, ghost made: set<Partition>, ghost v: Verdict)
    requires d.Shape() && (d.updateMode > 0 ==> IsStripped(d)) && ValidGeoms(d)
    requires n == SnapshotFor(d, part) && part in n.own
    modifies d`updateMode, d`partList, d`prims, d`logs, d`ext, d.Nodes()`prev, d.Nodes()`next,
             d.Owner()`partList, part`geom
    ensures d.Shape() && IsSettled(d) && d.ext == old(d.ext) && d.updateMode == old(d.updateMode)
    ensures fresh(made) && d.Nodes() <= old(d.Nodes()) + made
    ensures ok ==> v.Placed?
    ensures IsMaximum(d, part, n, c, a1, if ok then Some(v.geom) else None)
    ensures ok ==> MoveOutcome(CoreList(d, part.ptype.logical), CoreList(d, !part.ptype.logical), d.CoreOf(), part,
        n, v, v.geom)
    ensures MaximizeCase(d, CoreList(d, part.ptype.logical), CoreList(d, !part.ptype.logical), d.CoreOf(), part, n,
        c, a1, a2, ok).Holds()
    ensures Slots(Minus(n.own, part)) == Without(n.t.Siblings(part.ptype.logical), Index(n.own, part))
    ensures ok && Restorable(d, part, n) && GrowsStrictly(d, part, n, c, a1) ==> Sound(d.CoreOf())
  {
    hide Disk.Shape, Disk.CoreOf, Disk.Nodes, CoreList, IsSettled, SnapshotFor, Restorable, VerdictFor, Sound, Moved,
        MaxRequest, Slots, Relinked, Without;
    SnapshotOwn(d, part);
    SnapshotShape(d, part);
    ok, made := MaximizePartition(d, part, c, a1, a2);
    SlotsKept(Minus(n.own, part));
    var g := MaxRequest(n.t, part.ptype.logical, Index(n.own, part));
    v := VerdictFor(n, d, part, g, c, a1);
    if ok && Restorable(d, part, n) && GrowsStrictly(d, part, n, c, a1) {
      MaximizedSound(d, part, n, c, g, a1);
    }
  }

  /** What the attempt to go back from the geometry grown leaves: everything as
      in snapshot n if the label accepts the old geometry; else the partition
      stays grown, among placeholders of the old geometry. */
  ghost predicate WentBack(d: Disk, part: Partition, n: Snapshot, a: Answers, grown: Geom)
    reads d`prims, d`logs, d`updateMode, d.prims`geom, d.logs`geom, part`geom, n.own`geom
  {
    var logical := part.ptype.logical;
    && part in n.own && Index(n.own, part) < |n.t.Siblings(logical)|
    && if LabelAccepts(a, n.was) then
         && part.geom == n.was && d.CoreOf() == n.t
         && CoreList(d, logical) == n.own && CoreList(d, !logical) == n.other
         && (d.updateMode == 0 ==> IsFilled(d))
       else
         && part.geom == grown && d.CoreOf() == Moved(n.t, logical, Index(n.own, part), grown)
         && Replaced(CoreList(d, logical), part, n, grown) && CoreList(d, !logical) == n.other
         && (d.updateMode == 0 ==> IsFilledFor(d, part, n.was))
  }

  /** The nodes own of snapshot n, with part where its geometry g belongs. */
  ghost predicate Replaced(own: seq<Partition>, part: Partition, n: Snapshot, g: Geom)
    requires part in n.own && Index(n.own, part) < |n.t.Siblings(part.ptype.logical)|
  {
    && part in own && Minus(own, part) == Minus(n.own, part)
    && Index(own, part) == MovedIndex(n.t, part.ptype.logical, Index(n.own, part), g)
  }

  lemma BackHome(d: Disk, part: Partition, n: Snapshot, a: Answers, v: Geom, core: Table, own: seq<Partition>)
    requires part in n.own && Restorable(d, part, n) && BackFrom(d, part, n, a, core, own)
    requires part.geom == if LabelAccepts(a, n.was) then n.was else v
    requires Replaced(own, part, n, v) && core == Moved(n.t, part.ptype.logical, Index(n.own, part), v)
    requires Slots(Minus(n.own, part)) == Without(n.t.Siblings(part.ptype.logical), Index(n.own, part))
    ensures WentBack(d, part, n, a, v)
  {
    hide Disk.CoreOf, CoreList, IsFilled, IsFilledFor, Moved, Slots, Relinked, Minus, Index, Sound;
    if LabelAccepts(a, n.was) {
      RelinkedHome(n.own, own, part, n.t, part.ptype.logical);
    }
  }

  /** The second step of get_max_partition_geometry, after a move to v.geom. */
  method GoBack(d: Disk, part: Partition, a: Answers, ghost n: Snapshot, was: Geom, ghost v: Verdict)
      returns (ghost made: set<Partition>)
    requires d.Shape() && IsSettled(d) && part in n.own && v.Placed? && Distinct(n.own) && was == n.was && was.Valid()
    requires MoveOutcome(CoreList(d, part.ptype.logical), CoreList(d, !part.ptype.logical), d.CoreOf(), part, n, v,
        v.geom)
    requires d.updateMode == 0 ==> AllActive(n.own) && AllActive(n.other)
    requires Slots(Minus(n.own, part)) == Without(n.t.Siblings(part.ptype.logical), Index(n.own, part))
    modifies d`updateMode, d`partList, d`prims, d`logs, d`ext, d.Nodes()`prev, d.Nodes()`next,
             d.Owner()`partList, part`geom
    ensures d.Shape() && d.updateMode == old(d.updateMode) && d.ext == old(d.ext)
    ensures fresh(made) && d.Nodes() <= old(d.Nodes()) + made
    ensures Restorable(d, part, n) && Sound(old(d.CoreOf())) ==> WentBack(d, part, n, a, v.geom)
  {
    hide Disk.Shape, Disk.CoreOf, Disk.Nodes, CoreList, IsFilled, IsStripped, Restorable, Sound, Moved, Slots,
        Relinked, Without, Index, WentBack, BackFrom, Minus, InsertPos, AllActive, Distinct;
    ghost var own, core, rest := CoreList(d, part.ptype.logical), d.CoreOf(), Minus(n.own, part);
    RelinkedMinus(n.own, part);
    made := RestoreExact(d, part, a, n, was, v);
    if Restorable(d, part, n) && Sound(core) {
      SlotsKept(rest);
      BackHome(d, part, n, a, v.geom, core, own);
    }
  }

  /** ped_disk_get_max_partition_geometry; asserted is whether its final
      assertion holds.  When the label accepts the old geometry, the active
      lists are afterwards exactly what they were. */
  method GetMaxPartitionGeometry(d: Disk, part: Partition, c: Option<Constraint>, a1: Answers, a2: Answers, a3: Answers)
      returns (max: Option<Geom>, asserted: bool, ghost made: set<Partition>)
    requires d.Shape() && (d.updateMode > 0 ==> IsStripped(d)) && ValidGeoms(d)
        && part in BaseList(d, part.ptype.logical)
    modifies d`updateMode, d`partList, d`prims, d`logs, d`ext, d.Nodes()`prev, d.Nodes()`next,
             d.Owner()`partList, part`geom
    ensures d.Shape() && d.updateMode == old(d.updateMode) && d.ext == old(d.ext)
    ensures fresh(made) && d.Nodes() <= old(d.Nodes()) + made
    ensures IsMaximum(d, part, old(SnapshotFor(d, part)), c, a1, max)
    ensures max == None ==>
      && asserted && IsSettled(d)
      && MaximizeCase(d, CoreList(d, part.ptype.logical), CoreList(d, !part.ptype.logical), d.CoreOf(), part,
                      old(SnapshotFor(d, part)), c, a1, a2, false).Holds()
    ensures max.Some? ==> asserted == (part.geom == old(part.geom))
    ensures var n := old(SnapshotFor(d, part));
      Restorable(d, part, n) && GrowsStrictly(d, part, n, c, a1) && max.Some? ==>
        WentBack(d, part, n, a3, max.value)
  {
    hide Disk.Shape, Disk.CoreOf, Disk.Nodes, CoreList, IsFilled, SnapshotFor, Restorable, VerdictFor, Sound, Moved,
        Slots, Without, Index, IsMaximum, MaximizeCase.Holds, GrowsStrictly, WentBack, Minus, AllActive, Distinct;
    ghost var n := SnapshotFor(d, part);
    SnapshotOwn(d, part);
    SnapshotShape(d, part);
    BasePartValid(d, part);
    var was := part.geom;
    var ok;
    ghost var v;
    ok, made, v := GrowFirst(d, part, c, a1, a2, n);
    if !ok {
      return None, true, made;
    }
    max := Some(part.geom);
    ghost var more := GoBack(d, part, a3, n, was, v);
    made := made + more;
    asserted := part.geom == was;
  }

  lemma BasePartValid(d: Disk, part: Partition)
    requires ValidGeoms(d) && part in BaseList(d, part.ptype.logical)
    ensures part.geom.Valid()
  {
  }

  // ----- Minimizing the extended partition -----

  /** From the first sector of the first slot to the last one of the last. */
  function Hull(s: seq<Slot>): Geom
    requires s != []
  {
    Geom(s[0].geom.start, s[|s| - 1].geom.end)
  }

  /** The smallest geometry with every slot inside. */
  lemma HullIsSmallest(s: seq<Slot>, lo: int, hi: int, g: Geom)
    requires Ordered(s, lo, hi) && s != []
    ensures (forall i :: 0 <= i < |s| ==> s[i].geom.Inside(g)) <==> Hull(s).Inside(g)
    ensures Hull(s).start <= Hull(s).end && Hull(s).Inside(Geom(lo, hi))
  {
    if forall i :: 0 <= i < |s| ==> s[i].geom.Inside(g) {
      assert s[0].geom.Inside(g) && s[|s| - 1].geom.Inside(g);
    }
  }

  /** Asking for the hull of the logicals, with no further constraint, succeeds
      as soon as the label accepts it. */
  lemma HullVerdict(t: Table, a: Answers)
    requires Sound(t) && t.length <= LLONG_MAX && t.Ext().Some? && t.logs != [] && t.Ext().value.start >= 0
    requires LabelAccepts(a, Hull(t.logs))
    ensures MoveVerdict(t, EXTENDED, ExtIndex(t.prims), Hull(t.logs), Some(ConstraintAny(t.length)), false, a)
         == Placed(Hull(t.logs))
  {
    hide ExtIndex, Window, FreeOfOthers, Without;
    var k, e, h := ExtIndex(t.prims), t.Ext().value, Hull(t.logs);
    HullIsSmallest(t.logs, e.start, e.end, e);
    HullIsSmallest(t.logs, e.start, e.end, h);
    MemberIn(t.prims, k, 0, t.length - 1);
    FreeInside(t.prims, k, e, h);
    FreeOfRest(t.prims, k, h);
    WithoutKeepsOrder(t.prims, k, 0, t.length - 1);
    WindowIgnoresSelf(t.prims, k, h.start, 0, LLONG_MAX - 1);
    WindowHoldsFree(Without(t.prims, k), h, 0, LLONG_MAX - 1);
    NarrowSolutions(RoomWindow(t, EXTENDED, k, h.start).value, ConstraintAny(t.length), h);
  }

  /** Maximizing succeeds with the largest geometry there is, as soon as the
      label accepts it and the caller's constraint allows it. */
  lemma MaximizeVerdict(t: Table, logical: bool, k: nat, c: Constraint, a: Answers)
    requires Sound(t) && t.length <= LLONG_MAX && k < |t.Siblings(logical)|
    requires t.Siblings(logical)[k].ptype.logical == logical && (logical ==> t.Ext().Some? && t.Ext().value.start >= 0)
    requires LabelAccepts(a, MaxRequest(t, logical, k)) && c.IsSolution(MaxRequest(t, logical, k))
    ensures MoveVerdict(t, t.Siblings(logical)[k].ptype, k, MaxRequest(t, logical, k), Some(c), false, a)
         == Placed(MaxRequest(t, logical, k))
  {
    hide ExtIndex, Window, FreeOfOthers, Without, MaxRequest, Ordered, Checked;
    var s, h, room := t.Siblings(logical), MaxRequest(t, logical, k), Room(t, logical);
    var ptype := s[k].ptype;
    MaxRequestIsLargest(t, logical, k, s[k].geom);
    BoundsOrdered(t, logical);
    FreeOfRest(s, k, h);
    WithoutKeepsOrder(s, k, room.start, room.end);
    WindowIgnoresSelf(s, k, h.start, room.start, room.end);
    WindowHoldsFree(Without(s, k), h, room.start, room.end);
    NarrowSolutions(RoomWindow(t, ptype, k, h.start).value, c, h);
    MaximizedChecked(t, logical, k, a);
  }

  lemma MaximizedChecked(t: Table, logical: bool, k: nat, a: Answers)
    requires Sound(t) && k < |t.Siblings(logical)|
    requires t.Siblings(logical)[k].ptype.logical == logical && (logical ==> t.Ext().Some? && t.Ext().value.start >= 0)
    requires a.accepted
    ensures Checked(t, t.Siblings(logical)[k].ptype, k, MaxRequest(t, logical, k), a)
  {
    hide ExtIndex, MaxRequest, Ordered;
    var s, h := t.Siblings(logical), MaxRequest(t, logical, k);
    MaxRequestIsLargest(t, logical, k, s[k].geom);
    if !logical {
      ExtIsOnly(t.prims, k);
      if s[k].ptype.IsExtended() {
        OrderedStarts(t.logs, s[k].geom.start, s[k].geom.end);
      } else if ExtIndex(t.prims) >= 0 {
        FreeMeans(t.prims, k, h, ExtIndex(t.prims));
      }
    } else {
      OwnerInside(t);
    }
  }

  lemma OwnerInside(t: Table)
    requires Sound(t) && t.Ext().Some?
    ensures t.Ext().value.Inside(Geom(0, t.length - 1))
  {
  }

  lemma FreeInside(s: seq<Slot>, k: int, g: Geom, h: Geom)
    requires FreeOfOthers(s, k, g) && h.Inside(g) && h.start <= h.end
    ensures FreeOfOthers(s, k, h)
  {
  }

  /** The last logical. */
  method LastLogical(d: Disk, first: Partition) returns (last: Partition)
    requires d.Shape() && d.logs != [] && first == d.logs[0]
    ensures last == d.logs[|d.logs| - 1]
    ensures d.Shape()
  {
    last := first;
    ghost var i := 0;
    while last.next != null
      invariant i < |d.logs| && last == d.logs[i]
      decreases |d.logs| - i
    {
      last := last.next;
      i := i + 1;
    }
  }

  /** What minimizing leaves when there are logicals. */
  datatype MinimizeCase = MinimizeCase(
      d: Disk, own: seq<Partition>, other: seq<Partition>, t: Table, part: Partition, n: Snapshot, a: Answers,
          ok: bool) {

    ghost predicate Holds()
      reads d`needsClobber, part`geom, n.own`geom
    {
      && part in n.own && n.t.logs != []
      && var v := VerdictFor(n, d, part, Hull(n.t.logs), Some(ConstraintAny(d.length)), a);
      && (ok <==> Hull(n.t.logs).start <= Hull(n.t.logs).end && v.Placed?)
      && (ok ==> MoveOutcome(own, other, t, part, n, v, v.geom))
      && (!ok ==> own == n.own && other == n.other && t == n.t && part.geom == n.was)
    }
  }

  twostate lemma MinimizeKept(w: MinimizeCase)
    requires old(w.Holds()) && w.d.needsClobber == old(w.d.needsClobber)
    requires forall p | p in w.n.own :: p.geom == old(p.geom)
    ensures w.Holds()
  {
    hide Slots, InsertPos, Moved, Regeom, MoveVerdict, Index;
    var o := Minus(w.n.own, w.part);
    assert forall i | 0 <= i < |o| :: o[i] in w.n.own;
    SlotsKept(o);
  }

  /** Its set_partition_geom, around the logicals. */
  method MinimizePushed(d: Disk, e: Partition, first: Partition, a: Answers, ghost n: Snapshot) returns (ok: bool)
    requires d.Shape() && d.updateMode > 0 && IsStripped(d) && ValidGeoms(d)
    requires d.ext == e && d.logs != [] && first == d.logs[0] && n == SnapshotFor(d, e) && e in n.own
    modifies d`updateMode, d`partList, d`prims, d`logs, d`ext, d.Nodes()`prev, d.Nodes()`next,
             d.Owner()`partList, e`geom
    ensures d.Shape() && IsStripped(d) && d.ext == old(d.ext) && d.updateMode == old(d.updateMode)
    ensures d.Nodes() <= old(d.Nodes())
    ensures MinimizeCase(d, d.List(e.ptype.logical), d.List(!e.ptype.logical), d.TableOf(), e, n, a, ok).Holds()
  {
    hide Disk.Shape, Disk.TableOf, Disk.Nodes, VerdictFor, SnapshotFor, IsStripped, MoveOutcome, Slots;
    var last := LastLogical(d, first);
    ShapeKept(d);
    HullEnds(d, e, n);
    SnapshotKept(EditAt(d, e));
    ok := SetGeomPushed(d, e, Some(ConstraintAny(d.length)), first.geom.start, last.geom.end, a, n);
    SnapshotPushed(d, e, n);
  }

  lemma HullEnds(d: Disk, e: Partition, n: Snapshot)
    requires d.Shape() && d.updateMode > 0 && d.ext == e && d.logs != [] && n == SnapshotFor(d, e) && ValidGeoms(d)
    ensures n.t.logs != [] && Hull(n.t.logs) == Geom(d.logs[0].geom.start, d.logs[|d.logs| - 1].geom.end)
    ensures d.logs[0].geom.start >= 0
  {
  }

  datatype EditAt = EditAt(d: Disk, part: Partition)

  twostate lemma SnapshotKept(w: EditAt)
    requires w.d.prims == old(w.d.prims) && w.d.logs == old(w.d.logs) && w.d.updateMode == old(w.d.updateMode)
    requires forall p | p in old(w.d.prims) :: p.geom == old(p.geom)
    requires forall p | p in old(w.d.logs) :: p.geom == old(p.geom)
    requires w.part.geom == old(w.part.geom)
    ensures SnapshotFor(w.d, w.part) == old(SnapshotFor(w.d, w.part))
  {
    var p, l := Base(w.d.prims, w.d.updateMode), Base(w.d.logs, w.d.updateMode);
    assert forall i | 0 <= i < |p| :: p[i] in w.d.prims;
    assert forall i | 0 <= i < |l| :: l[i] in w.d.logs;
    SlotsKept(p);
    SlotsKept(l);
  }

  method MinimizeAndPop(d: Disk, e: Partition, first: Partition, a: Answers, ghost n: Snapshot)
      returns (ok: bool, ghost made: set<Partition>)
    requires d.Shape() && d.updateMode > 0 && IsStripped(d) && ValidGeoms(d)
    requires d.ext == e && d.logs != [] && first == d.logs[0] && n == SnapshotFor(d, e) && e in n.own
    modifies d`updateMode, d`partList, d`prims, d`logs, d`ext, d.Nodes()`prev, d.Nodes()`next,
             d.Owner()`partList, e`geom
    ensures d.Shape() && IsSettled(d) && d.ext == e && d.updateMode == old(d.updateMode) - 1
    ensures fresh(made) && d.Nodes() <= old(d.Nodes()) + made
    ensures MinimizeCase(d, CoreList(d, e.ptype.logical), CoreList(d, !e.ptype.logical), d.CoreOf(), e, n, a,
        ok).Holds()
  {
    hide Disk.Shape, Disk.TableOf, Disk.CoreOf, Disk.Nodes, SnapshotFor, IsFilled, MinimizeCase.Holds, Filter;
    MinimizeOwn(d, e, n);
    ok := MinimizePushed(d, e, first, a, n);
    ghost var w := MinimizeCase(d, d.List(e.ptype.logical), d.List(!e.ptype.logical), d.TableOf(), e, n, a, ok);
    label M:
    made := Pop(d);
    PoppedCore@M(d);
    MinimizeKept@M(w);
  }

  lemma MinimizeOwn(d: Disk, e: Partition, n: Snapshot)
    requires d.updateMode > 0 && n == SnapshotFor(d, e)
    ensures n.own == d.List(e.ptype.logical)
  {
  }

  /** Without logicals the extended partition is deleted, once update mode has
      been left. */
  method PopAndDelete(d: Disk, e: Partition) returns (ghost made: set<Partition>)
    requires d.Shape() && d.updateMode > 0 && IsStripped(d) && d.ext == e && d.logs == []
    requires d.updateMode == 1 ==> AllActive(d.prims)
    modifies d`updateMode, d`partList, d`prims, d`logs, d`ext, d.Nodes()`prev, d.Nodes()`next,
             d.Owner()`partList
    ensures d.Shape() && IsSettled(d) && d.ext == null && d.updateMode == old(d.updateMode) - 1
    ensures fresh(made) && d.Nodes() <= old(d.Nodes()) + made
    ensures CoreList(d, false) == PrimsAfter(old(d.prims), e) && CoreList(d, true) == []
  {
    hide Disk.Shape, Disk.Nodes, IsFilled, Filter, PrimsAfter;
    OwnerFacts(d);
    ghost var s := d.prims;
    ghost var m := Pop(d);
    if d.updateMode == 0 {
      ActiveFilter(d.prims);
    }
    made := DeletePartition(d, e);
    made := made + m;
  }

  /** The outcome of minimizing the extended partition e of snapshot n. */
  ghost predicate MinimizeOutcome(d: Disk, e: Partition, n: Snapshot, a: Answers, ok: bool)
    reads d, d.prims`geom, d.logs`geom, e`geom, n.own`geom
  {
    IsSettled(d) &&
    if n.other == [] then
      ok && d.ext == null && CoreList(d, false) == PrimsAfter(n.own, e) && CoreList(d, true) == []
    else
      d.ext == e && MinimizeCase(d, CoreList(d, false), CoreList(d, true), d.CoreOf(), e, n, a, ok).Holds()
  }

  /** From its push on. */
  method MinimizeLinked(d: Disk, e: Partition, a: Answers, ghost n: Snapshot)
      returns (ok: bool, ghost made: set<Partition>)
    requires d.Shape() && (d.updateMode > 0 ==> IsStripped(d)) && ValidGeoms(d)
    requires d.ext == e && n == SnapshotFor(d, e) && e in n.own && (d.updateMode == 0 ==> AllActive(n.own))
    modifies d`updateMode, d`partList, d`prims, d`logs, d`ext, d.Nodes()`prev, d.Nodes()`next,
             d.Owner()`partList, e`geom
    ensures d.Shape() && d.updateMode == old(d.updateMode)
    ensures fresh(made) && d.Nodes() <= old(d.Nodes()) + made
    ensures MinimizeOutcome(d, e, n, a, ok)
  {
    hide Disk.Shape, Disk.Nodes, Disk.CoreOf, IsSettled, Filter, PrimsAfter, MinimizeCase.Holds, IsStripped,
        SnapshotFor;
    OwnerFacts(d);
    PushFor(d, e, n);
    OwnerFacts(d);
    SnapshotLists(d, e, n);
    var first := e.partList;
    if first == null {
      made := PopAndDelete(d, e);
      return true, made;
    }
    ok, made := MinimizeAndPop(d, e, first, a, n);
  }

  lemma SnapshotLists(d: Disk, part: Partition, n: Snapshot)
    requires d.updateMode > 0 && n == SnapshotFor(d, part)
    ensures n.own == d.List(part.ptype.logical) && n.other == d.List(!part.ptype.logical)
  {
  }

  lemma OwnerSnapshot(d: Disk)
    requires d.Shape() && d.ext != null
    ensures !d.ext.ptype.logical && d.ext in BaseList(d, false)
    ensures d.updateMode == 0 ==> AllActive(BaseList(d, false))
  {
  }

  /** ped_disk_minimize_extended_partition. */
  method MinimizeExtended(d: Disk, a: Answers) returns (ok: bool, ghost made: set<Partition>)
    requires d.Shape() && (d.updateMode > 0 ==> IsStripped(d)) && ValidGeoms(d)
    modifies d`updateMode, d`partList, d`prims, d`logs, d`ext, d.Nodes()`prev, d.Nodes()`next,
             d.Owner()`partList, d.Owner()`geom
    ensures d.Shape() && d.updateMode == old(d.updateMode)
    ensures fresh(made) && d.Nodes() <= old(d.Nodes()) + made
    ensures old(d.ext) == null ==> ok && d.prims == old(d.prims) && d.logs == old(d.logs) && d.ext == null
    ensures old(d.ext) != null ==> MinimizeOutcome(d, old(d.ext), old(SnapshotFor(d, d.ext)), a, ok)
  {
    hide Disk.Shape, Disk.Nodes, Disk.TableOf, Disk.PrimsShape, Links, ExtIndex, IsStripped, SnapshotFor,
        MinimizeOutcome, ValidGeoms, BaseList, AllActive;
    OwnerFacts(d);
    var e := ExtendedPartition(d);
    ShapeKept(d);
    made := {};
    if e == null {
      return true, {};
    }
    SnapshotKept(EditAt(d, e));
    ghost var n := SnapshotFor(d, e);
    OwnerSnapshot(d);
    SnapshotOwn(d, e);
    ok, made := MinimizeLinked(d, e, a, n);
  }
}
