// The edits of a run carried out on the linked lists themselves.

module Sessions {
  import opened Common
  import opened Geometry
  import opened Layout
  import opened Placement
  import opened Nodes
  import opened Disks
  import opened Traversal
  import opened FreeSpace
  import opened UpdateMode
  import opened Edits
  import opened Resizing
  import opened Copying
  import opened Caveats
  import opened Placeholders
  import opened Runs

  function LimitsOf(d: Disk): Limits {
    Limits(d.maxPrimaries, d.hasExtended)
  }

  /** Between two edits: out of update mode, with no metadata left over. */
  ghost predicate Ready(d: Disk)
    reads d, d.prims, d.logs, d.Owner()
  {
    && d.Shape() && d.updateMode == 0 && !d.needsClobber
    && AllActive(CoreList(d, true)) && AllActive(CoreList(d, false))
    && Healthy(d.CoreOf())
  }

  /** In a ready disk the next push finds what the last pop left. */
  lemma ReadyBase(d: Disk)
    requires Ready(d)
    ensures BaseTable(d) == d.CoreOf()
    ensures BaseList(d, true) == CoreList(d, true) && BaseList(d, false) == CoreList(d, false)
  {
    hide Disk.Shape, Filter;
    ActiveFilter(d.prims);
    ActiveFilter(d.logs);
  }

  lemma ReadyValid(d: Disk)
    requires Ready(d)
    ensures ValidGeoms(d)
  {
    ReadyBase(d);
    hide Disk.Shape, Filter;
    CoreMembers(d, true);
    CoreMembers(d, false);
    SlotsValid(d.CoreOf(), true, CoreList(d, true));
    SlotsValid(d.CoreOf(), false, CoreList(d, false));
  }

  lemma SlotsValid(t: Table, logical: bool, s: seq<Partition>)
    requires Sound(t) && t.Siblings(logical) == Slots(s)
    ensures forall p | p in s :: p.geom.Valid()
  {
    forall p | p in s
      ensures p.geom.Valid()
    {
      var i :| 0 <= i < |s| && s[i] == p;
      MemberOf(t, logical, i);
    }
  }

  lemma ReadySane(d: Disk, ptype: PartType)
    requires Ready(d) && ptype.IsActive()
    ensures BasicallySane(d, ptype) <==> Sane(d.CoreOf(), ptype, LimitsOf(d))
  {
    ReadyBase(d);
    CoreOwner(d);
  }

  lemma CoreOwner(d: Disk)
    requires d.Shape()
    ensures ExtIndex(d.CoreOf().prims) == if d.ext == null then -1 else Index(CoreList(d, false), d.ext)
    ensures d.CoreOf().Ext() == if d.ext == null then None else Some(d.ext.geom)
    ensures d.ext != null ==> d.ext in CoreList(d, false)
  {
    OwnerFacts(d);
    hide Links, Index, ExtIndex;
    ExtIsOwner(CoreList(d, false), d.ext);
  }

  /** The walk along one list for its node at place k, placeholders not counted. */
  method NthUsed(first: Partition?, ghost s: seq<Partition>, k: nat) returns (part: Partition?)
    requires Links(s) && first == Head(s)
    ensures part == if k < |Filter(IsUsedNode, s)| then Filter(IsUsedNode, s)[k] else null
  {
    hide Filter;
    FilterNone(IsUsedNode, []);
    part := first;
    var left: int := k;
    ghost var i := 0;
    while part != null
      invariant i <= |s| && part == if i < |s| then s[i] else null
      invariant 0 <= left && left == k - |Filter(IsUsedNode, s[..i])|
      decreases |s| - i
    {
      FilterPoint(s, i);
      if !part.ptype.free {
        if left == 0 {
          return;
        }
        left := left - 1;
      }
      part := part.next;
      i := i + 1;
    }
    assert s[..i] == s;
  }

  /** The partition at place k of a list, if there are that many. */
  method FindNth(d: Disk, logical: bool, k: nat) returns (part: Partition?)
    requires d.Shape()
    ensures part == if k < |CoreList(d, logical)| then CoreList(d, logical)[k] else null
    ensures d.Shape()
  {
    hide Filter, Disk.Shape;
    OwnerFacts(d);
    ShapeFacts(d);
    part := d.partList;
    if logical {
      var e := ExtendedPartition(d);
      part := if e == null then null else e.partList;
    }
    part := NthUsed(part, d.List(logical), k);
    ShapeKept(d);
  }

  /** What the edits see of partition k of a ready disk. */
  lemma ReadySnapshot(d: Disk, logical: bool, k: nat)
    requires Ready(d) && k < |CoreList(d, logical)|
    ensures var part := CoreList(d, logical)[k];
      && part.ptype.logical == logical && part in BaseList(d, logical)
      && SnapshotFor(d, part) == Snapshot(d.CoreOf(), CoreList(d, logical), CoreList(d, !logical), part.geom)
      && Index(CoreList(d, logical), part) == k
      && k < |d.CoreOf().Siblings(logical)| && d.CoreOf().Siblings(logical)[k] == SlotOf(part)
  {
    ReadyBase(d);
    hide Filter, Slots;
    var s := CoreList(d, logical);
    assert Distinct(d.List(logical));
    FilterDistinct(IsUsedNode, d.List(logical));
    assert s[k] in d.List(logical);
  }

  lemma OutcomeActive(own: seq<Partition>, other: seq<Partition>, t: Table, part: Partition, n: Snapshot, v: Verdict,
      g: Geom)
    requires part in n.own && MoveOutcome(own, other, t, part, n, v, g)
    requires AllActive(n.own) && AllActive(n.other)
    ensures AllActive(own) && AllActive(other)
  {
    RelinkedActive(n.own, part);
  }

  /** What an edit must leave for the next one. */
  lemma ReadyAgain(d: Disk, t: Table, e: Edit)
    requires d.Shape() && d.updateMode == 0 && !d.needsClobber && Healthy(t) && Proper(t, e, LimitsOf(d))
    requires AllActive(CoreList(d, true)) && AllActive(CoreList(d, false))
    requires d.CoreOf() == Step(t, e, LimitsOf(d))
    ensures Ready(d)
  {
    StepHealthy(t, e, LimitsOf(d));
  }

  lemma OwnerNode(d: Disk)
    requires d.Shape()
    ensures d.Owner() <= d.Nodes()
  {
  }

  /** The placeholders after a move with verdict v. */
  lemma MovedFilled(d: Disk, part: Partition, t: Table, k: nat, v: Verdict, g: Geom)
    requires Ready(d) && part in CoreList(d, part.ptype.logical) && d.CoreOf() == t && !v.Placed?
    requires Index(CoreList(d, part.ptype.logical), part) == k && k < |t.Siblings(part.ptype.logical)|
    requires IsFilledFor(d, part, GeomAt(v, part.geom, g))
    ensures IsFilled(d) <==> Harmless(t, part.ptype.logical, k, GeomAt(v, part.geom, g))
  {
    hide Disk.Shape, Disk.CoreOf, IsFilled, IsFilledFor, Harmless, CoreList;
    StaleExactly(d, part, GeomAt(v, part.geom, g));
  }

  lemma SetGeomHarms(t: Table, logical: bool, k: nat, c: Option<Constraint>, start: nat, end: int, a: Answers,
      l: Limits)
    requires k < |t.Siblings(logical)| && start <= end
    ensures var e, x := SetGeom(logical, k, c, start, end, a), t.Siblings(logical)[k];
      var v := MoveVerdict(t, x.ptype, k, Geom(start, end), c, false, a);
      && Settles(t, e, l)
      && (Harms(t, e) <==> !v.Placed? && !Harmless(t, logical, k, GeomAt(v, x.geom, Geom(start, end))))
      && Step(t, e, l) == if v.Placed? then Moved(t, logical, k, v.geom) else t
  {
  }

  /** ped_disk_set_partition_geom on a ready disk. */
  method PerformSetGeom(d: Disk, part: Partition, c: Option<Constraint>, start: nat, end: int, a: Answers, ghost k: nat)
      returns (ghost made: set<Partition>)
    requires Ready(d) && Proper(d.CoreOf(), SetGeom(part.ptype.logical, k, c, start, end, a), LimitsOf(d))
    requires k < |CoreList(d, part.ptype.logical)| && part == CoreList(d, part.ptype.logical)[k]
    modifies d, d.Nodes()
    ensures Ready(d) && fresh(made) && d.Nodes() <= old(d.Nodes()) + made
    ensures var e := SetGeom(part.ptype.logical, k, c, start, end, a);
      && d.CoreOf() == Step(old(d.CoreOf()), e, LimitsOf(d))
      && IsFilled(d) == FilledAfter(old(d.CoreOf()), e, LimitsOf(d), old(IsFilled(d)))
  {
    hide Disk.Shape, Disk.CoreOf, CoreList, SnapshotFor, IsFilled, IsFilledFor, Moved, AllActive, Healthy, Relinked,
        Index, Harmless, Harms, Step, Proper;
    ghost var logical, t, was := part.ptype.logical, d.CoreOf(), part.geom;
    ghost var n, e := SnapshotFor(d, part), SetGeom(logical, k, c, start, end, a);
    OwnerNode(d);
    ReadySnapshot(d, logical, k);
    var ok;
    ok, made := SetPartitionGeom(d, part, c, start, end, a);
    if start > end {
      Untouched(d);
      NotMoved(t, logical, k, c, start, end, a, LimitsOf(d));
      ReadyAgain(d, t, e);
    } else {
      ghost var v := VerdictFor(n, d, part, Geom(start, end), c, a);
      OutcomeActive(CoreList(d, logical), CoreList(d, !logical), d.CoreOf(), part, n, v, part.geom);
      SetGeomHarms(t, logical, k, c, start, end, a, LimitsOf(d));
      ReadyAgain(d, t, e);
      if !ok {
        MovedFilled(d, part, t, k, v, Geom(start, end));
      }
    }
  }

  lemma NotMoved(t: Table, logical: bool, k: nat, c: Option<Constraint>, start: nat, end: int, a: Answers, l: Limits)
    requires start > end
    ensures Step(t, SetGeom(logical, k, c, start, end, a), l) == t
  {
  }

  /** The values of MaximizeOutcome, in a ready disk's terms. */
  lemma MaximizedTable(d: Disk, own: seq<Partition>, other: seq<Partition>, t': Table, part: Partition, n: Snapshot,
                       c: Option<Constraint>, a: Answers, again: Answers, ok: bool, k: nat, l: Limits)
    requires MaximizeCase(d, own, other, t', part, n, c, a, again, ok).Holds()
    requires !d.needsClobber && n.t.length == d.length && AllActive(n.own) && AllActive(n.other)
    requires Index(n.own, part) == k && n.t.Siblings(part.ptype.logical)[k] == Slot(part.ptype, n.was) && n.was.Valid()
    ensures AllActive(own) && AllActive(other)
    ensures t' == Step(n.t, Maximize(part.ptype.logical, k, c, a, again), l)
  {
    hide Moved, MoveVerdict, MaxRequest, Relinked, AllActive;
    var logical := part.ptype.logical;
    var g := MaxRequest(n.t, logical, k);
    var v1 := VerdictFor(n, d, part, g, c, a);
    var v2 := VerdictFor(n, d, part, n.was, Some(ConstraintAny(d.length)), again);
    if ok {
      OutcomeActive(own, other, t', part, n, v1, v1.geom);
    } else if v2.Placed? {
      OutcomeActive(own, other, t', part, n, v2, v2.geom);
    }
  }

  method PerformMaximize(d: Disk, part: Partition, c: Option<Constraint>, a: Answers, again: Answers, ghost k: nat)
      returns (ghost made: set<Partition>)
    requires Ready(d) && Proper(d.CoreOf(), Maximize(part.ptype.logical, k, c, a, again), LimitsOf(d))
    requires k < |CoreList(d, part.ptype.logical)| && part == CoreList(d, part.ptype.logical)[k]
    modifies d, d.Nodes()
    ensures Ready(d) && fresh(made) && d.Nodes() <= old(d.Nodes()) + made
    ensures d.CoreOf() == Step(old(d.CoreOf()), Maximize(part.ptype.logical, k, c, a, again), LimitsOf(d))
    ensures IsFilled(d)
  {
    hide Disk.Shape, Disk.CoreOf, CoreList, SnapshotFor, IsFilled, AllActive, Healthy, Index, MaximizeCase.Holds, Step;
    ghost var logical, t := part.ptype.logical, d.CoreOf();
    ghost var n := SnapshotFor(d, part);
    OwnerNode(d);
    ReadySnapshot(d, logical, k);
    ReadyValid(d);
    BasePartValid(d, part);
    CoreMembers(d, logical);
    var ok;
    ok, made := MaximizePartition(d, part, c, a, again);
    MaximizedTable(d, CoreList(d, logical), CoreList(d, !logical), d.CoreOf(), part, n, c, a, again, ok, k,
        LimitsOf(d));
    ReadyAgain(d, t, Maximize(logical, k, c, a, again));
  }

  /** What get_max_partition_geometry makes of the table. */
  lemma MaximumTable(t: Table, logical: bool, k: nat, c: Option<Constraint>, a: Answers, again: Answers,
      back: Answers, l: Limits)
    requires k < |t.Siblings(logical)|
    ensures var e, x, g := GetMax(logical, k, c, a, again, back), t.Siblings(logical)[k], MaxRequest(t, logical, k);
      var v := MoveVerdict(t, x.ptype, k, g, c, false, a);
      && Settles(t, e, l)
      && (g.start > g.end || !v.Placed? ==>
            Step(t, e, l) == Step(t, Maximize(logical, k, c, a, again), l) && !Harms(t, e))
      && (g.start <= g.end && v.Placed? ==>
            && (LabelAccepts(back, x.geom) ==> Step(t, e, l) == t && !Harms(t, e))
            && (!LabelAccepts(back, x.geom) ==>
                  Step(t, e, l) == Moved(t, logical, k, v.geom)
                  && (Harms(t, e) <==> StaysHarmful(t, logical, k, v.geom))))
  {
    hide MaxRequest, MoveVerdict, Moved, MovedTo, StaysHarmful;
  }

  /** The placeholders after a refused way back. */
  lemma StayedFilled(d: Disk, part: Partition, n: Snapshot, g: Geom)
    requires Ready(d) && part in n.own && Index(n.own, part) < |n.t.Siblings(part.ptype.logical)|
    requires n.t.Siblings(part.ptype.logical)[Index(n.own, part)].geom == n.was
    requires Replaced(CoreList(d, part.ptype.logical), part, n, g) && IsFilledFor(d, part, n.was)
    requires d.CoreOf() == Moved(n.t, part.ptype.logical, Index(n.own, part), g)
    ensures IsFilled(d) <==> !StaysHarmful(n.t, part.ptype.logical, Index(n.own, part), g)
  {
    hide Disk.Shape, Disk.CoreOf, IsFilled, IsFilledFor, Harmless, CoreList, Index, Moved, Healthy, AllActive, Minus;
    HealthySound(d.CoreOf());
    StaleExactly(d, part, n.was);
    CoreHas(d, part);
  }

  /** What get_max_partition_geometry promises of partition k of snapshot n. */
  ghost predicate MaximumOutcome(d: Disk, part: Partition, n: Snapshot, c: Option<Constraint>, a: Answers,
      again: Answers, back: Answers, max: Option<Geom>)
    reads d, d.prims`geom, d.logs`geom, part`geom, n.own`geom
  {
    && IsMaximum(d, part, n, c, a, max)
    && (max == None ==>
          && MaximizeCase(d, CoreList(d, part.ptype.logical), CoreList(d, !part.ptype.logical), d.CoreOf(), part, n,
                          c, a, again, false).Holds()
          && (d.updateMode == 0 ==> IsFilled(d)))
    && (Restorable(d, part, n) && GrowsStrictly(d, part, n, c, a) && max.Some? ==>
          WentBack(d, part, n, back, max.value))
  }

  lemma MaximumReady(d: Disk, part: Partition, n: Snapshot, c: Option<Constraint>, a: Answers,
      again: Answers, back: Answers, max: Option<Geom>, k: nat)
    requires MaximumOutcome(d, part, n, c, a, again, back, max) && AllActive(n.own) && AllActive(n.other)
    requires d.Shape() && d.updateMode == 0 && !d.needsClobber && Healthy(n.t) && n.t.length == d.length
    requires part in n.own && Index(n.own, part) == k && k < |n.t.Siblings(part.ptype.logical)|
    requires n.t.Siblings(part.ptype.logical)[k] == Slot(part.ptype, n.was)
    requires Proper(n.t, GetMax(part.ptype.logical, k, c, a, again, back), LimitsOf(d))
    ensures var e := GetMax(part.ptype.logical, k, c, a, again, back);
      && Ready(d) && d.CoreOf() == Step(n.t, e, LimitsOf(d))
      && IsFilled(d) == !Harms(n.t, e) && Settles(n.t, e, LimitsOf(d))
  {
    MaximumCanGoBack(d, part, n, c, a, again, back, k);
    hide Disk.Shape, Disk.CoreOf, CoreList, IsFilled, IsFilledFor, AllActive, Healthy, Index, MaximizeCase.Holds,
        Step, Harms, Restorable, GrowsStrictly, Proper, MaxRequest, MoveVerdict, Moved, StaysHarmful, Minus;
    MaximumTable(n.t, part.ptype.logical, k, c, a, again, back, LimitsOf(d));
    if max == None {
      MaximizedTable(d, CoreList(d, part.ptype.logical), CoreList(d, !part.ptype.logical), d.CoreOf(), part, n, c, a,
          again, false, k, LimitsOf(d));
    } else {
      WentBackTable(d, part, n, back, max.value);
    }
    ReadyAgain(d, n.t, GetMax(part.ptype.logical, k, c, a, again, back));
    if max.Some? && !LabelAccepts(back, n.was) {
      StayedFilled(d, part, n, max.value);
    }
  }

  lemma MaximumCanGoBack(d: Disk, part: Partition, n: Snapshot, c: Option<Constraint>, a: Answers, again: Answers,
      back: Answers, k: nat)
    requires !d.needsClobber && Healthy(n.t) && n.t.length == d.length && part in n.own
    requires Index(n.own, part) == k && k < |n.t.Siblings(part.ptype.logical)|
    requires n.t.Siblings(part.ptype.logical)[k] == Slot(part.ptype, n.was)
    requires Proper(n.t, GetMax(part.ptype.logical, k, c, a, again, back), LimitsOf(d))
    ensures Restorable(d, part, n) && GrowsStrictly(d, part, n, c, a) && n.was.Valid()
  {
    hide MoveVerdict, MaxRequest, Index, ExtIndex;
    LogicalOwned(n.t, part.ptype.logical, k);
    MemberOf(n.t, part.ptype.logical, k);
  }

  /** ped_disk_get_max_partition_geometry on a ready disk. */
  method PerformGetMax(d: Disk, part: Partition, c: Option<Constraint>, a: Answers, again: Answers, back: Answers,
      ghost k: nat)
      returns (ghost made: set<Partition>)
    requires Ready(d) && Proper(d.CoreOf(), GetMax(part.ptype.logical, k, c, a, again, back), LimitsOf(d))
    requires k < |CoreList(d, part.ptype.logical)| && part == CoreList(d, part.ptype.logical)[k]
    modifies d, d.Nodes()
    ensures Ready(d) && fresh(made) && d.Nodes() <= old(d.Nodes()) + made
    ensures var e := GetMax(part.ptype.logical, k, c, a, again, back);
      && d.CoreOf() == Step(old(d.CoreOf()), e, LimitsOf(d))
      && IsFilled(d) == FilledAfter(old(d.CoreOf()), e, LimitsOf(d), old(IsFilled(d)))
  {
    hide Disk.Shape, Disk.CoreOf, CoreList, SnapshotFor, IsFilled, AllActive, Healthy, Index, MaximizeCase.Holds,
        Step, Harms, WentBack, Proper, IsMaximum, Restorable, GrowsStrictly, Settles;
    ghost var n := SnapshotFor(d, part);
    OwnerNode(d);
    ReadySnapshot(d, part.ptype.logical, k);
    ReadyValid(d);
    CoreMembers(d, part.ptype.logical);
    var max, asserted;
    max, asserted, made := GetMaxPartitionGeometry(d, part, c, a, again, back);
    MaximumReady(d, part, n, c, a, again, back, max, k);
  }

  lemma WentBackTable(d: Disk, part: Partition, n: Snapshot, a: Answers, g: Geom)
    requires WentBack(d, part, n, a, g) && AllActive(n.own) && AllActive(n.other)
    ensures AllActive(CoreList(d, true)) && AllActive(CoreList(d, false))
  {
    hide Disk.CoreOf, CoreList, IsFilled, IsFilledFor, Moved, Index, AllActive;
    if !LabelAccepts(a, n.was) {
      ActiveReplaced(CoreList(d, part.ptype.logical), part, n, g);
    }
  }

  lemma ActiveReplaced(own: seq<Partition>, part: Partition, n: Snapshot, g: Geom)
    requires part in n.own && Index(n.own, part) < |n.t.Siblings(part.ptype.logical)|
    requires Replaced(own, part, n, g) && AllActive(n.own)
    ensures AllActive(own)
  {
    ActiveMinus(n.own, part);
    assert n.own[Index(n.own, part)] == part;
    forall i | 0 <= i < |own|
      ensures IsActiveNode(own[i])
    {
      if own[i] != part {
        StaysIn(own, part, i);
      }
    }
  }

  lemma StaysIn(s: seq<Partition>, part: Partition, i: nat)
    requires part in s && i < |s| && s[i] != part
    ensures exists j :: 0 <= j < |Minus(s, part)| && Minus(s, part)[j] == s[i]
  {
    var k := Index(s, part);
    assert Minus(s, part)[if i < k then i else i - 1] == s[i];
  }

  lemma ActiveMinus(s: seq<Partition>, part: Partition)
    requires AllActive(s) && part in s
    ensures AllActive(Minus(s, part))
  {
  }

  lemma ActiveUsed(s: seq<Partition>, part: Partition)
    requires AllActive(s)
    ensures AllActive(PrimsAfter(s, part)) && AllActive(LogsAfter(s, part))
  {
    if part in s {
      ActiveMinus(s, part);
    }
  }

  /** The lists of DeletePartition, as a table. */
  lemma DeletedTable(d: Disk, own: seq<Partition>, other: seq<Partition>, t: Table, part: Partition, k: nat)
    requires part in own && part !in other && Index(own, part) == k && t.length == d.length
    requires t.Siblings(part.ptype.logical) == Slots(own) && t.Siblings(!part.ptype.logical) == Slots(other)
    requires Filter(IsUsedNode, d.prims) == PrimsAfter(if part.ptype.logical then other else own, part)
    requires Filter(IsUsedNode, d.logs) == LogsAfter(if part.ptype.logical then own else other, part)
    requires AllActive(own) && AllActive(other)
    ensures d.CoreOf() == Deleted(t, part.ptype.logical, k)
    ensures AllActive(CoreList(d, true)) && AllActive(CoreList(d, false))
  {
    ActiveUsed(own, part);
    ActiveUsed(other, part);
    hide Filter, Slots, Index;
    CoreMembers(d, part.ptype.logical);
    SlotsWithout(own, k);
    assert Slots(own)[k] == SlotOf(part);
    assert Slots([]) == [];
  }

  lemma ListsApart(d: Disk, part: Partition)
    requires Ready(d) && part in CoreList(d, part.ptype.logical)
    ensures part !in CoreList(d, !part.ptype.logical)
  {
  }

  method PerformDelete(d: Disk, part: Partition, ghost k: nat) returns (ghost made: set<Partition>)
    requires Ready(d) && k < |CoreList(d, part.ptype.logical)| && part == CoreList(d, part.ptype.logical)[k]
    modifies d, d.Nodes()
    ensures Ready(d) && fresh(made) && d.Nodes() <= old(d.Nodes()) + made
    ensures d.CoreOf() == Step(old(d.CoreOf()), Delete(part.ptype.logical, k), LimitsOf(d))
    ensures IsFilled(d)
  {
    hide Disk.Shape, Disk.CoreOf, CoreList, SnapshotFor, IsFilled, AllActive, Healthy, Index, PrimsAfter, LogsAfter,
        Deleted, Slots, Step;
    ghost var logical, t := part.ptype.logical, d.CoreOf();
    ghost var own, other := CoreList(d, logical), CoreList(d, !logical);
    OwnerNode(d);
    ReadyBase(d);
    ReadySnapshot(d, logical, k);
    ListsApart(d, part);
    CoreMembers(d, logical);
    CoreMembers(d, !logical);
    made := DeletePartition(d, part);
    SlotsKept(own);
    SlotsKept(other);
    DeletedTable(d, own, other, t, part, k);
    UnlinkSteps(t, logical, k, LimitsOf(d));
    ReadyAgain(d, t, Delete(logical, k));
  }

  /** ped_disk_remove_partition on a ready disk. */
  method PerformRemove(d: Disk, part: Partition, ghost k: nat) returns (ghost made: set<Partition>)
    requires Ready(d) && k < |CoreList(d, part.ptype.logical)| && part == CoreList(d, part.ptype.logical)[k]
    requires Proper(d.CoreOf(), Remove(part.ptype.logical, k), LimitsOf(d))
    modifies d, d.Nodes()
    ensures Ready(d) && fresh(made) && d.Nodes() <= old(d.Nodes()) + made
    ensures d.CoreOf() == Step(old(d.CoreOf()), Remove(part.ptype.logical, k), LimitsOf(d))
    ensures IsFilled(d)
  {
    hide Disk.Shape, Disk.CoreOf, CoreList, SnapshotFor, IsFilled, AllActive, Healthy, Index, PrimsAfter, LogsAfter,
        Deleted, Slots, Removed, Step, Proper;
    ghost var logical, t := part.ptype.logical, d.CoreOf();
    ghost var own, other := CoreList(d, logical), CoreList(d, !logical);
    OwnerNode(d);
    ReadyBase(d);
    ReadySnapshot(d, logical, k);
    ListsApart(d, part);
    CoreMembers(d, logical);
    CoreMembers(d, !logical);
    NoLogicals(d);
    UnlinkSteps(t, logical, k, LimitsOf(d));
    made := RemovePartition(d, part);
    SlotsKept(own);
    SlotsKept(other);
    DeletedTable(d, own, other, t, part, k);
    DeletedIsRemoved(t, logical, k);
    ReadyAgain(d, t, Remove(logical, k));
  }

  lemma UnlinkSteps(t: Table, logical: bool, k: nat, l: Limits)
    requires k < |t.Siblings(logical)|
    ensures Step(t, Delete(logical, k), l) == Deleted(t, logical, k)
    ensures Step(t, Remove(logical, k), l) == Removed(t, logical, k)
    ensures Proper(t, Remove(logical, k), l) <==> (t.Siblings(logical)[k].ptype.IsExtended() ==> t.logs == [])
    ensures Proper(t, Delete(logical, k), l)
  {
  }

  lemma NoLogicals(d: Disk)
    ensures d.CoreOf().logs == [] <==> CoreList(d, true) == []
  {
  }

  /** Deleting and removing differ in the logicals of an extended partition. */
  lemma DeletedIsRemoved(t: Table, logical: bool, k: nat)
    requires k < |t.Siblings(logical)| && (t.Siblings(logical)[k].ptype.IsExtended() ==> t.logs == [])
    ensures Deleted(t, logical, k) == Removed(t, logical, k)
  {
    assert t.logs == [] ==> t.(logs := []) == t;
  }

  lemma CoreIsFilter(d: Disk)
    ensures CoreList(d, false) == Filter(IsUsedNode, d.prims) && CoreList(d, true) == Filter(IsUsedNode, d.logs)
  {
  }

  lemma ActiveWith(s: seq<Partition>, k: nat, part: Partition)
    requires AllActive(s) && k <= |s| && IsActiveNode(part)
    ensures AllActive(With(s, k, part))
  {
    WithMembers(s, k, part);
  }

  twostate lemma CoreKept(d: Disk)
    requires d.prims == old(d.prims) && d.logs == old(d.logs)
    requires forall p | p in old(d.prims) :: p.geom == old(p.geom)
    requires forall p | p in old(d.logs) :: p.geom == old(p.geom)
    ensures d.CoreOf() == old(d.CoreOf())
  {
    hide Slots, Filter;
    SlotsKept(CoreList(d, false));
    SlotsKept(CoreList(d, true));
  }

  /** Nothing was linked, unlinked or moved. */
  twostate lemma Untouched(d: Disk)
    requires d.prims == old(d.prims) && d.logs == old(d.logs)
    requires forall p | p in old(d.prims) :: p.geom == old(p.geom)
    requires forall p | p in old(d.logs) :: p.geom == old(p.geom)
    ensures d.CoreOf() == old(d.CoreOf()) && IsFilled(d) == old(IsFilled(d))
    ensures CoreList(d, true) == old(CoreList(d, true)) && CoreList(d, false) == old(CoreList(d, false))
  {
    hide Disk.CoreOf, Disk.TableOf;
    CoreKept(d);
    TableKept(d);
  }

  /** ped_disk_add_partition on a ready disk. */
  method PerformAddPart(d: Disk, part: Partition, c: Option<Constraint>, a: Answers)
      returns (ghost made: set<Partition>)
    requires Ready(d) && Proper(d.CoreOf(), Add(part.ptype, part.geom, c, a), LimitsOf(d))
    requires part !in d.Nodes() && part.partList == null
    requires CoreList(d, part.ptype.logical) == [] ==> part.prev == null && part.next == null
    modifies d, d.Nodes(), part
    ensures Ready(d) && fresh(made) && d.Nodes() <= old(d.Nodes()) + made + {part}
    ensures d.CoreOf() == Step(old(d.CoreOf()), Add(part.ptype, old(part.geom), c, a), LimitsOf(d))
    ensures IsFilled(d) == FilledAfter(old(d.CoreOf()), Add(part.ptype, old(part.geom), c, a), LimitsOf(d),
        old(IsFilled(d)))
  {
    hide IsFilled, Disk.Nodes, Step, Disk.Shape, Disk.CoreOf, BaseTable, BaseList, CoreList, BasicallySane,
        AllActive, Healthy, Slots, With, Added, AddVerdict, Sane;
    ghost var t, e, logical := d.CoreOf(), Add(part.ptype, part.geom, c, a), part.ptype.logical;
    ghost var own := CoreList(d, logical);
    OwnerNode(d);
    ReadyBase(d);
    ReadySane(d, part.ptype);
    var ok;
    ok, made := AddPartition(d, part, c, a);
    if !Sane(t, part.ptype, LimitsOf(d)) {
      Untouched(d);
    } else if ok {
      ActiveWith(own, InsertPos(Slots(own), part.geom.end), part);
    }
    AddStep(t, part.ptype, old(part.geom), c, a, LimitsOf(d));
    ReadyAgain(d, t, e);
  }

  lemma AddStep(t: Table, ptype: PartType, g: Geom, c: Option<Constraint>, a: Answers, l: Limits)
    ensures var v := AddVerdict(t, ptype, g, c, false, a);
      Step(t, Add(ptype, g, c, a), l) == if Sane(t, ptype, l) && v.Placed? then Added(t, Slot(ptype, v.geom)) else t
  {
  }

  lemma MinimizeNone(t: Table, a: Answers, l: Limits)
    requires ExtIndex(t.prims) < 0
    ensures Step(t, Minimize(a), l) == t
  {
  }

  method PerformAdd(d: Disk, ptype: PartType, g: Geom, c: Option<Constraint>, a: Answers)
      returns (ghost made: set<Partition>)
    requires Ready(d) && Proper(d.CoreOf(), Add(ptype, g, c, a), LimitsOf(d))
    modifies d, d.Nodes()
    ensures Ready(d) && fresh(made) && d.Nodes() <= old(d.Nodes()) + made
    ensures d.CoreOf() == Step(old(d.CoreOf()), Add(ptype, g, c, a), LimitsOf(d))
    ensures IsFilled(d) == FilledAfter(old(d.CoreOf()), Add(ptype, g, c, a), LimitsOf(d), old(IsFilled(d)))
  {
    hide Disk.Shape, Disk.CoreOf, CoreList, AllActive, Healthy, Proper, Step, FilledAfter, IsFilled;
    var part := new Partition(ptype, g);
    ShapeKept(d);
    CoreKept(d);
    made := PerformAddPart(d, part, c, a);
    made := made + {part};
  }

  // ----- Minimizing and deleting everything -----

  lemma MinimizedTable(d: Disk, n: Snapshot, e: Partition, a: Answers, ok: bool, t: Table)
    requires MinimizeOutcome(d, e, n, a, ok) && d.Shape() && d.updateMode == 0 && !d.needsClobber
    requires t == n.t && t.length == d.length && AllActive(n.own) && AllActive(n.other)
    requires e in n.own && !e.ptype.logical && e.ptype.IsExtended()
    requires Index(n.own, e) == ExtIndex(t.prims) && t.prims[ExtIndex(t.prims)].ptype == e.ptype
    requires Slots(Minus(n.own, e)) == Without(t.prims, Index(n.own, e)) && |t.logs| == |n.other|
    ensures AllActive(CoreList(d, true)) && AllActive(CoreList(d, false))
    ensures d.CoreOf() == Step(t, Minimize(a), LimitsOf(d)) && IsFilled(d)
  {
    hide Disk.Shape, Filter, Slots, Moved, MoveVerdict, Relinked, AllActive, Index, ExtIndex, IsFilled;
    CoreMembers(d, false);
    var k := Index(n.own, e);
    if n.other == [] {
      ActiveMinus(n.own, e);
    } else if ok {
      var v := VerdictFor(n, d, e, Hull(n.t.logs), Some(ConstraintAny(d.length)), a);
      OutcomeActive(CoreList(d, false), CoreList(d, true), d.CoreOf(), e, n, v, v.geom);
    }
  }

  method PerformMinimize(d: Disk, a: Answers) returns (ghost made: set<Partition>)
    requires Ready(d)
    modifies d, d.Nodes()
    ensures Ready(d) && fresh(made) && d.Nodes() <= old(d.Nodes()) + made
    ensures d.CoreOf() == Step(old(d.CoreOf()), Minimize(a), LimitsOf(d))
    ensures IsFilled(d) == FilledAfter(old(d.CoreOf()), Minimize(a), LimitsOf(d), old(IsFilled(d)))
  {
    hide IsFilled, Step, Disk.Shape, Disk.CoreOf, CoreList, SnapshotFor, MinimizeOutcome, AllActive, Healthy, Index,
        Slots, ExtIndex, Minus;
    ghost var t, own, other, e := d.CoreOf(), CoreList(d, false), CoreList(d, true), d.ext;
    OwnerNode(d);
    OwnerFacts(d);
    CoreOwner(d);
    ReadyBase(d);
    ReadyValid(d);
    ghost var n := if e != null then OwnerView(d) else Snapshot(t, own, other, Geom(0, 0));
    ghost var rest := if e != null then Minus(own, e) else [];
    if e != null {
      BesidesOwner(d);
    }
    var ok;
    ok, made := MinimizeExtended(d, a);
    if e == null {
      Untouched(d);
      MinimizeNone(t, a, LimitsOf(d));
    } else {
      SlotsKept(rest);
      MinimizedTable(d, n, e, a, ok, t);
    }
    ReadyAgain(d, t, Minimize(a));
  }

  lemma BesidesOwner(d: Disk)
    requires d.Shape() && d.ext in CoreList(d, false)
    ensures forall p | p in Minus(CoreList(d, false), d.ext) :: p != d.ext && p in d.Nodes()
  {
    hide Filter;
    FilterDistinct(IsUsedNode, d.prims);
  }

  ghost function OwnerView(d: Disk): (n: Snapshot)
    requires Ready(d) && d.ext != null
    reads d, d.prims, d.logs, d.Owner()
    ensures n == SnapshotFor(d, d.ext)
    ensures n.own == CoreList(d, false) && n.other == CoreList(d, true) && n.t == d.CoreOf() && d.ext in n.own
    ensures Slots(Minus(n.own, d.ext)) == Without(n.t.prims, Index(n.own, d.ext)) && |n.t.logs| == |n.other|
  {
    ReadyBase(d);
    CoreOwner(d);
    SlotsWithout(CoreList(d, false), Index(CoreList(d, false), d.ext));
    SnapshotFor(d, d.ext)
  }

  lemma BlankCore(d: Disk)
    requires CoreList(d, false) == [] && CoreList(d, true) == []
    ensures d.CoreOf() == Table(d.length, [], [])
    ensures AllActive(CoreList(d, true)) && AllActive(CoreList(d, false))
  {
  }

  method PerformDeleteAll(d: Disk) returns (ghost made: set<Partition>)
    requires Ready(d)
    modifies d, d.Nodes()
    ensures Ready(d) && fresh(made) && d.Nodes() <= old(d.Nodes()) + made
    ensures d.CoreOf() == Step(old(d.CoreOf()), Edit.Clear, LimitsOf(d))
    ensures IsFilled(d)
  {
    hide Disk.Shape, Disk.CoreOf, CoreList, AllActive, Healthy;
    ghost var t := d.CoreOf();
    OwnerNode(d);
    CoreMembers(d, false);
    made := DeleteAll(d);
    BlankCore(d);
    ReadyAgain(d, t, Edit.Clear);
  }

  // ----- Leaving update mode and entering it again -----

  /** Two well-linked states of the same lists have the same links. */
  twostate lemma SameLinks(d: Disk)
    requires old(d.Shape()) && d.Shape()
    requires d.prims == old(d.prims) && d.logs == old(d.logs) && d.ext == old(d.ext)
    ensures d.partList == old(d.partList) && (d.ext != null ==> d.ext.partList == old(d.ext.partList))
    ensures forall p | p in d.prims || p in d.logs :: p.prev == old(p.prev) && p.next == old(p.next)
  {
    forall p | p in d.prims || p in d.logs
      ensures p.prev == old(p.prev) && p.next == old(p.next)
    {
      var s := if p in d.prims then d.prims else d.logs;
      var i :| 0 <= i < |s| && s[i] == p;
      assert s[i].prev == p.prev && s[i].next == p.next;
    }
  }

  /** The placeholders a pop allocates are stripped again by the next push: the
      lists of active nodes come back, link for link. */
  method PopThenPush(d: Disk) returns (ghost made: set<Partition>)
    requires d.Shape() && d.updateMode == 1 && IsStripped(d) && AllActive(d.prims) && AllActive(d.logs)
    modifies d, d.Nodes()
    ensures d.Shape() && d.updateMode == 1 && d.prims == old(d.prims) && d.logs == old(d.logs) && d.ext == old(d.ext)
    ensures d.partList == old(d.partList)
    ensures forall p | p in d.prims || p in d.logs ::
        p.prev == old(p.prev) && p.next == old(p.next) && p.geom == old(p.geom)
    ensures fresh(made)
  {
    hide Disk.Shape, Filter, IsFilled, AllActive;
    OwnerNode(d);
    made := Pop(d);
    ActiveFilter(d.prims);
    ActiveFilter(d.logs);
    OwnerNode(d);
    Push(d);
    SameLinks(d);
  }

  /** A push and a pop allocate the same placeholder intervals again. */
  method PushThenPop(d: Disk) returns (ghost made: set<Partition>)
    requires Ready(d)
    modifies d, d.Nodes()
    ensures Ready(d) && d.CoreOf() == old(d.CoreOf()) && IsFilled(d) && fresh(made)
    ensures old(IsFilled(d)) ==> d.TableOf() == old(d.TableOf())
  {
    hide Disk.Shape, Disk.CoreOf, Disk.TableOf, BaseTable, Filter, AllActive, Healthy;
    ReadyBase(d);
    OwnerNode(d);
    Push(d);
    PushedTable(d);
    OwnerNode(d);
    label L:
    made := Pop(d);
    PoppedCore@L(d);
  }

  // ----- Runs -----

  twostate lemma ReadyKept(d: Disk)
    requires old(Ready(d)) && d.Shape() && d.updateMode == old(d.updateMode) && d.needsClobber == old(d.needsClobber)
    requires d.prims == old(d.prims) && d.logs == old(d.logs)
    requires forall p | p in old(d.prims) :: p.geom == old(p.geom)
    requires forall p | p in old(d.logs) :: p.geom == old(p.geom)
    ensures Ready(d) && d.CoreOf() == old(d.CoreOf()) && IsFilled(d) == old(IsFilled(d))
  {
    hide Disk.Shape, Disk.CoreOf, Disk.TableOf;
    CoreKept(d);
    TableKept(d);
  }

  /** One edit of a script. */
  method Perform(d: Disk, e: Edit) returns (ghost made: set<Partition>)
    requires Ready(d) && Proper(d.CoreOf(), e, LimitsOf(d))
    modifies d, d.Nodes()
    ensures Ready(d) && fresh(made) && d.Nodes() <= old(d.Nodes()) + made
    ensures d.CoreOf() == Step(old(d.CoreOf()), e, LimitsOf(d))
    ensures IsFilled(d) == FilledAfter(old(d.CoreOf()), e, LimitsOf(d), old(IsFilled(d)))
  {
    hide Ready, Disk.CoreOf, Disk.Nodes, Step, IsFilled, Proper;
    match e
    case Add(ptype, g, c, a) =>
      made := PerformAdd(d, ptype, g, c, a);
    case SetGeom(logical, k, c, start, end, a) =>
      var part := FindPart(d, logical, k, e);
      if part == null {
        return {};
      }
      made := PerformSetGeom(d, part, c, start, end, a, k);
    case Maximize(logical, k, c, a, again) =>
      var part := FindPart(d, logical, k, e);
      if part == null {
        return {};
      }
      made := PerformMaximize(d, part, c, a, again, k);
    case GetMax(logical, k, c, a, again, back) =>
      var part := FindPart(d, logical, k, e);
      if part == null {
        return {};
      }
      made := PerformGetMax(d, part, c, a, again, back, k);
    case Delete(logical, k) =>
      var part := FindPart(d, logical, k, e);
      if part == null {
        return {};
      }
      made := PerformDelete(d, part, k);
    case Remove(logical, k) =>
      var part := FindPart(d, logical, k, e);
      if part == null {
        return {};
      }
      made := PerformRemove(d, part, k);
    case Minimize(a) =>
      made := PerformMinimize(d, a);
    case Clear =>
      made := PerformDeleteAll(d);
  }

  /** Edit e concerns partition k of a list. */
  predicate Names(e: Edit, logical: bool, k: nat) {
    || (e.SetGeom? && e.logical == logical && e.k == k)
    || (e.Maximize? && e.logical == logical && e.k == k)
    || (e.GetMax? && e.logical == logical && e.k == k)
    || (e.Delete? && e.logical == logical && e.k == k)
    || (e.Remove? && e.logical == logical && e.k == k)
  }

  /** Finds that partition; without one the edit has no effect. */
  method FindPart(d: Disk, logical: bool, k: nat, ghost e: Edit) returns (part: Partition?)
    requires Ready(d) && Names(e, logical, k)
    ensures Ready(d) && d.CoreOf() == old(d.CoreOf()) && IsFilled(d) == old(IsFilled(d))
    ensures part == null ==> d.CoreOf() == Step(d.CoreOf(), e, LimitsOf(d)) && !Settles(d.CoreOf(), e, LimitsOf(d))
    ensures part != null ==>
      k < |d.CoreOf().Siblings(logical)| &&
      part.ptype.logical == logical && k < |CoreList(d, logical)| && part == CoreList(d, logical)[k]
  {
    hide IsFilled, Disk.Shape, Disk.CoreOf, CoreList, Healthy, AllActive, Slots, Filter, Index;
    CoreMembers(d, logical);
    part := FindNth(d, logical, k);
    ReadyKept(d);
    CoreIsFilter(d);
    if part != null {
      ReadySnapshot(d, logical, k);
    }
  }

  /** A script of edits, carried out one after the other: the linked lists end
      as the tables say, and so every list is well linked, sorted, disjoint and
      within its bounds after any number of proper edits.  The placeholders are
      right unless the last edit that left update mode was a harmful one. */
  method RunEdits(d: Disk, edits: seq<Edit>) returns (ghost made: set<Partition>)
    requires Ready(d) && ProperRun(d.CoreOf(), edits, LimitsOf(d))
    modifies d, d.Nodes()
    ensures Ready(d) && fresh(made) && d.Nodes() <= old(d.Nodes()) + made
    ensures d.CoreOf() == Run(old(d.CoreOf()), edits, LimitsOf(d))
    ensures IsFilled(d) == FilledRun(old(d.CoreOf()), edits, LimitsOf(d), old(IsFilled(d)))
  {
    hide Ready, Disk.CoreOf, Disk.Nodes, Step, IsFilled, Proper;
    made := {};
    ghost var t, l := d.CoreOf(), LimitsOf(d);
    assert edits[0..] == edits;
    for i := 0 to |edits|
      invariant Ready(d) && fresh(made) && d.Nodes() <= old(d.Nodes()) + made
      invariant ProperRun(d.CoreOf(), edits[i..], l) && Run(d.CoreOf(), edits[i..], l) == Run(t, edits, l)
      invariant FilledRun(d.CoreOf(), edits[i..], l, IsFilled(d)) == FilledRun(t, edits, l, old(IsFilled(d)))
    {
      assert edits[i..][1..] == edits[i + 1..];
      var m := Perform(d, edits[i]);
      made := made + m;
    }
    assert edits[|edits|..] == [];
  }

  /** What Ready and IsFilled mean for the sectors of the device. */
  lemma ReadyTiled(d: Disk)
    requires Ready(d) && IsFilled(d) && d.length > 0
    ensures TiledTable(d.TableOf())
  {
    FilledIsTiled(d.CoreOf());
  }
}
