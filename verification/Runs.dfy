// Whole runs of public edits, from one settled disk to the next.

module Runs {
  import opened Common
  import opened Geometry
  import opened Layout
  import opened Placement
  import opened Soundness
  import opened Resizing
  import opened Caveats
  import opened Solver
  import opened Verdicts

  /** The limits a label sets (get_max_primary_partition_count, its features). */
  datatype Limits = Limits(maxPrimaries: int, hasExtended: bool)

  /** A public edit.  A partition is named by its place in its list. */
  datatype Edit =
    | Add(ptype: PartType, geom: Geom, c: Option<Constraint>, a: Answers)
    | SetGeom(logical: bool, k: nat, c: Option<Constraint>, start: nat, end: int, a: Answers)
    | Maximize(logical: bool, k: nat, c: Option<Constraint>, a: Answers, again: Answers)
    | GetMax(logical: bool, k: nat, c: Option<Constraint>, a: Answers, again: Answers, back: Answers)
    | Delete(logical: bool, k: nat)
    | Remove(logical: bool, k: nat)
    | Minimize(a: Answers)
    | Clear

  /** Asking partition k to move to g comes to the same with a handler that
      ignores neither an overlap nor the end of the device. */
  predicate MovesStrictly(t: Table, logical: bool, k: nat, g: Geom, c: Option<Constraint>, a: Answers)
    requires k < |t.Siblings(logical)|
  {
    var ptype := t.Siblings(logical)[k].ptype;
    MoveVerdict(t, ptype, k, g, c, false, a) == MoveVerdict(t, ptype, k, g, c, false, a.Strict())
  }

  /** An edit that links active partitions only, orphans no logicals, and whose
      outcome does not owe to an IGNORE. */
  predicate Proper(t: Table, e: Edit, l: Limits) {
    match e
    case Add(ptype, g, c, a) =>
      ptype.IsActive() && g.Valid()
      && (Sane(t, ptype, l) ==> AddVerdict(t, ptype, g, c, false, a) == AddVerdict(t, ptype, g, c, false, a.Strict()))
    case SetGeom(logical, k, c, start, end, a) =>
      k < |t.Siblings(logical)| && start <= end ==> MovesStrictly(t, logical, k, Geom(start, end), c, a)
    case Maximize(logical, k, c, a, _) =>
      k < |t.Siblings(logical)| ==> MovesStrictly(t, logical, k, MaxRequest(t, logical, k), c, a)
    case GetMax(logical, k, c, a, _, _) =>
      k < |t.Siblings(logical)| ==> MovesStrictly(t, logical, k, MaxRequest(t, logical, k), c, a)
    case Remove(logical, k) =>
      k < |t.Siblings(logical)| && t.Siblings(logical)[k].ptype.IsExtended() ==> t.logs == []
    case _ => true
  }

  predicate ProperRun(t: Table, edits: seq<Edit>, l: Limits)
    decreases edits
  {
    edits == [] || (Proper(t, edits[0], l) && ProperRun(Step(t, edits[0], l), edits[1..], l))
  }

  /** _partition_check_basic_sanity, for an active partition. */
  predicate Sane(t: Table, ptype: PartType, l: Limits) {
    && (l.hasExtended || (!ptype.IsExtended() && ptype != PartType(true, false, false, false)))
    && (!ptype.logical ==> |t.prims| + 1 <= l.maxPrimaries)
    && (ptype.logical ==> t.Ext().Some?)
  }

  /** A table after partition k was asked to move to g. */
  function MovedTo(t: Table, logical: bool, k: nat, g: Geom, c: Option<Constraint>, a: Answers): Table
    requires k < |t.Siblings(logical)|
  {
    var v := MoveVerdict(t, t.Siblings(logical)[k].ptype, k, g, c, false, a);
    if g.start <= g.end && v.Placed? then Moved(t, logical, k, v.geom) else t
  }

  function Deleted(t: Table, logical: bool, k: nat): Table
    requires k < |t.Siblings(logical)|
  {
    var u := if t.Siblings(logical)[k].ptype.IsExtended() then t.(logs := []) else t;
    if k < |u.Siblings(logical)| then Removed(u, logical, k) else u
  }

  /** What one edit makes of a table of active partitions. */
  function Step(t: Table, e: Edit, l: Limits): Table {
    match e
    case Add(ptype, g, c, a) =>
      var v := AddVerdict(t, ptype, g, c, false, a);
      if Sane(t, ptype, l) && v.Placed? then Added(t, Slot(ptype, v.geom)) else t
    case SetGeom(logical, k, c, start, end, a) =>
      if k < |t.Siblings(logical)| then MovedTo(t, logical, k, Geom(start, end), c, a) else t
    case Maximize(logical, k, c, a, again) =>
      if k < |t.Siblings(logical)| then
        var s := t.Siblings(logical);
        var g := MaxRequest(t, logical, k);
        var v := MoveVerdict(t, s[k].ptype, k, g, c, false, a);
        if g.start <= g.end && v.Placed? then Moved(t, logical, k, v.geom)
        else MovedTo(t, logical, k, s[k].geom, Some(ConstraintAny(t.length)), again)
      else t
    case GetMax(logical, k, c, a, again, back) =>
      if k < |t.Siblings(logical)| then
        var x, g := t.Siblings(logical)[k], MaxRequest(t, logical, k);
        var v := MoveVerdict(t, x.ptype, k, g, c, false, a);
        if g.start > g.end || !v.Placed? then MovedTo(t, logical, k, x.geom, Some(ConstraintAny(t.length)), again)
        else if LabelAccepts(back, x.geom) then t
        else Moved(t, logical, k, v.geom)
      else t
    case Delete(logical, k) =>
      if k < |t.Siblings(logical)| then Deleted(t, logical, k) else t
    case Remove(logical, k) =>
      if k < |t.Siblings(logical)| then Removed(t, logical, k) else t
    case Minimize(a) =>
      var e := ExtIndex(t.prims);
      if e < 0 then t
      else if t.logs == [] then Removed(t, false, e)
      else MovedTo(t, false, e, Hull(t.logs), Some(ConstraintAny(t.length)), a)
    case Clear => t.(prims := [], logs := [])
  }

  function Run(t: Table, edits: seq<Edit>, l: Limits): Table
    decreases edits
  {
    if edits == [] then t else Run(Step(t, edits[0], l), edits[1..], l)
  }

  // ----- Placeholders -----

  /** The edit enters update mode, and so leaves it again. */
  predicate Settles(t: Table, e: Edit, l: Limits) {
    match e
    case Add(ptype, _, _, _) => Sane(t, ptype, l)
    case SetGeom(logical, k, _, start, end, _) => k < |t.Siblings(logical)| && start <= end
    case Maximize(logical, k, _, _, _) => k < |t.Siblings(logical)|
    case GetMax(logical, k, _, _, _, _) => k < |t.Siblings(logical)|
    case Delete(logical, k) => k < |t.Siblings(logical)|
    case Remove(logical, k) => k < |t.Siblings(logical)|
    case Minimize(_) => ExtIndex(t.prims) >= 0
    case Clear => true
  }

  /** A set geometry that fails with a rejected geometry that is not harmless:
      one of the caller's, or the old one that get_max_partition_geometry asks
      back for a partition that has grown. */
  predicate Harms(t: Table, e: Edit) {
    match e
    case SetGeom(logical, k, c, start, end, a) =>
      k < |t.Siblings(logical)| && start <= end
      && var x, g := t.Siblings(logical)[k], Geom(start, end);
         var v := MoveVerdict(t, x.ptype, k, g, c, false, a);
         !v.Placed? && !Harmless(t, logical, k, GeomAt(v, x.geom, g))
    case GetMax(logical, k, c, a, _, back) =>
      k < |t.Siblings(logical)|
      && var x, g := t.Siblings(logical)[k], MaxRequest(t, logical, k);
         var v := MoveVerdict(t, x.ptype, k, g, c, false, a);
         g.start <= g.end && v.Placed? && !LabelAccepts(back, x.geom) && StaysHarmful(t, logical, k, v.geom)
    case _ => false
  }

  /** The placeholders of its old geometry are wrong around a partition that has
      moved to g. */
  predicate StaysHarmful(t: Table, logical: bool, k: nat, g: Geom)
    requires k < |t.Siblings(logical)|
  {
    var u, k' := Moved(t, logical, k, g), MovedIndex(t, logical, k, g);
    k' < |u.Siblings(logical)| && !Harmless(u, logical, k', t.Siblings(logical)[k].geom)
  }

  /** Asking for 0..19 without a restriction, when the label finds no geometry. */
  lemma UnalignedHarms(a: Answers)
    requires a.aligned.None?
    ensures Harms(ONE_TAKEN, SetGeom(false, 0, Some(ConstraintAny(100)), 0, 19, a))
  {
    var t := ONE_TAKEN;
    assert ExtIndex(t.prims) == -1;
    WindowStep(t.prims, 0, 0, 0, 0, LLONG_MAX - 1);
    WindowStop(t.prims, 0, 1, 0, 0, LLONG_MAX - 1);
    RejectedHarms();
  }

  /** Whether the placeholders are right after the edit. */
  predicate FilledAfter(t: Table, e: Edit, l: Limits, before: bool) {
    if Settles(t, e, l) then !Harms(t, e) else before
  }

  predicate FilledRun(t: Table, edits: seq<Edit>, l: Limits, before: bool)
    decreases edits
  {
    if edits == [] then before
    else FilledRun(Step(t, edits[0], l), edits[1..], l, FilledAfter(t, edits[0], l, before))
  }

  /** Only the last edit that left update mode matters: the placeholders are
      right unless that one was harmful. */
  lemma {:induction false} LastSettles(t: Table, edits: seq<Edit>, l: Limits, before: bool, i: nat)
    requires i < |edits| && Settles(Run(t, edits[..i], l), edits[i], l)
    requires forall j :: i < j < |edits| ==> !Settles(Run(t, edits[..j], l), edits[j], l)
    ensures FilledRun(t, edits, l, before) <==> !Harms(Run(t, edits[..i], l), edits[i])
    decreases edits
  {
    hide Settles, Harms, Step;
    var u, rest := Step(t, edits[0], l), edits[1..];
    assert forall j :: 0 < j < |edits| ==> edits[..j][1..] == rest[..j - 1] && edits[..j][0] == edits[0];
    if i > 0 {
      assert forall j :: 0 < j < |edits| ==> Run(t, edits[..j], l) == Run(u, rest[..j - 1], l);
      LastSettles(u, rest, l, FilledAfter(t, edits[0], l, before), i - 1);
    } else {
      assert edits[..0] == [];
      forall j | 0 <= j < |rest|
        ensures !Settles(Run(u, rest[..j], l), rest[j], l)
      {
        assert Run(t, edits[..j + 1], l) == Run(u, rest[..j], l);
      }
      NoneSettles(u, rest, l, FilledAfter(t, edits[0], l, before));
    }
  }

  lemma {:induction false} NoneSettles(t: Table, edits: seq<Edit>, l: Limits, before: bool)
    requires forall j :: 0 <= j < |edits| ==> !Settles(Run(t, edits[..j], l), edits[j], l)
    ensures FilledRun(t, edits, l, before) == before
    decreases edits
  {
    hide Settles, Harms, Step;
    if edits != [] {
      var u, rest := Step(t, edits[0], l), edits[1..];
      assert edits[..0] == [];
      forall j | 0 <= j < |rest|
        ensures !Settles(Run(u, rest[..j], l), rest[j], l)
      {
        assert edits[..j + 1][1..] == rest[..j] && edits[..j + 1][0] == edits[0];
        assert Run(t, edits[..j + 1], l) == Run(u, rest[..j], l);
      }
      NoneSettles(u, rest, l, before);
    }
  }

  /** Active slots, of the kind that belongs into such a list. */
  ghost predicate Typed(s: seq<Slot>, logical: bool) {
    forall i :: 0 <= i < |s| ==> s[i].ptype.IsActive() && s[i].ptype.logical == logical
  }

  /** Everything a table of active partitions keeps from edit to edit. */
  ghost predicate Healthy(t: Table) {
    Sound(t) && t.length <= LLONG_MAX && Typed(t.prims, false) && Typed(t.logs, true)
  }

  lemma WithTyped(s: seq<Slot>, k: nat, x: Slot)
    requires k <= |s| && Typed(s, x.ptype.logical) && x.ptype.IsActive()
    ensures Typed(With(s, k, x), x.ptype.logical)
  {
    var r := With(s, k, x);
    assert forall i :: 0 <= i < |r| ==> r[i] == if i < k then s[i] else if i == k then x else s[i - 1];
  }

  lemma WithoutTyped(s: seq<Slot>, k: nat, logical: bool)
    requires k < |s| && Typed(s, logical)
    ensures Typed(Without(s, k), logical)
    ensures s[k].ptype.logical == logical && s[k].ptype.IsActive()
  {
    var r := Without(s, k);
    assert forall i :: 0 <= i < |r| ==> r[i] == if i < k then s[i] else s[i + 1];
  }

  lemma AddedHealthy(t: Table, x: Slot)
    requires Healthy(t) && Sound(Added(t, x)) && x.ptype.IsActive()
    ensures Healthy(Added(t, x))
  {
    hide Sound, Typed, With;
    var s := t.Siblings(x.ptype.logical);
    WithTyped(s, InsertPos(s, x.geom.end), x);
  }

  lemma RemovedHealthy(t: Table, logical: bool, k: nat)
    requires Healthy(t) && k < |t.Siblings(logical)| && Sound(Removed(t, logical, k))
    ensures Healthy(Removed(t, logical, k))
  {
    hide Sound, Typed, Without;
    WithoutTyped(t.Siblings(logical), k, logical);
  }

  lemma MovedToHealthy(t: Table, logical: bool, k: nat, g: Geom, c: Option<Constraint>, a: Answers)
    requires Healthy(t) && k < |t.Siblings(logical)|
    requires g.start <= g.end ==> MovesStrictly(t, logical, k, g, c, a)
    ensures Healthy(MovedTo(t, logical, k, g, c, a))
  {
    hide Healthy, Sound, MoveVerdict, Moved, ExtIndex;
    var x := t.Siblings(logical)[k];
    var v := MoveVerdict(t, x.ptype, k, g, c, false, a);
    if g.start <= g.end && v.Placed? {
      LogicalOwned(t, logical, k);
      HealthySound(t);
      MoveKeepsSound(t, k, logical, g, c, a);
      MovedTypes(t, logical, k, v.geom);
    }
  }

  lemma HealthySound(t: Table)
    requires Healthy(t)
    ensures Sound(t) && t.length <= LLONG_MAX
  {
  }

  lemma LogicalOwned(t: Table, logical: bool, k: nat)
    requires Healthy(t) && k < |t.Siblings(logical)|
    ensures t.Siblings(logical)[k].ptype.logical == logical
    ensures logical ==> t.Ext().Some? && t.Ext().value.start >= 0
  {
  }

  lemma MovedTypes(t: Table, logical: bool, k: nat, g: Geom)
    requires Healthy(t) && k < |t.Siblings(logical)| && Sound(Moved(t, logical, k, g))
    ensures Healthy(Moved(t, logical, k, g))
  {
    hide Sound, Typed, With, Without, InsertPos;
    var s := t.Siblings(logical);
    WithoutTyped(s, k, logical);
    var o := Without(s, k);
    WithTyped(o, InsertPos(o, g.end), s[k].(geom := g));
  }

  lemma DeletedHealthy(t: Table, logical: bool, k: nat)
    requires Healthy(t) && k < |t.Siblings(logical)|
    ensures Healthy(Deleted(t, logical, k))
  {
    var u := if t.Siblings(logical)[k].ptype.IsExtended() then t.(logs := []) else t;
    LogicalOwned(t, logical, k);
    assert !logical ==> u.Siblings(logical) == t.Siblings(logical);
    NoLogsHealthy(t);
    RemovedSound(u, logical, k);
    RemovedHealthy(u, logical, k);
  }

  lemma NoLogsHealthy(t: Table)
    requires Healthy(t)
    ensures Healthy(t.(logs := []))
  {
    assert t.(logs := []).Ext() == t.Ext();
  }

  /** Under a constraint that ends on the device, as an unrestricted one does,
      no IGNORE matters. */
  lemma StrictOnDevice(t: Table, logical: bool, k: nat, g: Geom, c: Option<Constraint>, a: Answers)
    requires Healthy(t) && k < |t.Siblings(logical)|
    requires a.ignoreOutsideDisk ==> logical || c.None? || c.value.endRange.end < t.length
    ensures MovesStrictly(t, logical, k, g, c, a)
  {
    hide Healthy, MoveVerdict, ExtIndex;
    LogicalOwned(t, logical, k);
    HealthySound(t);
    MoveIsStrict(t, t.Siblings(logical)[k].ptype, k, g, c, a);
  }

  /** Every proper edit keeps the layout invariant. */
  lemma StepHealthy(t: Table, e: Edit, l: Limits)
    requires Healthy(t) && Proper(t, e, l)
    ensures Healthy(Step(t, e, l))
  {
    hide Healthy, MovedTo, Deleted, Removed, MaxRequest, Hull, Moved, Added, MoveVerdict, AddVerdict, ExtIndex, Sane;
    match e
    case Add(ptype, g, c, a) =>
      var v := AddVerdict(t, ptype, g, c, false, a);
      if Sane(t, ptype, l) && v.Placed? {
        AddHealthy(t, ptype, g, c, a, l);
      }
    case SetGeom(logical, k, c, start, end, a) =>
      if k < |t.Siblings(logical)| {
        MovedToHealthy(t, logical, k, Geom(start, end), c, a);
      }
    case Maximize(logical, k, c, a, again) =>
      if k < |t.Siblings(logical)| {
        GrownHealthy(t, logical, k, c, a, again);
      }
    case GetMax(logical, k, c, a, again, _) =>
      if k < |t.Siblings(logical)| {
        GrownHealthy(t, logical, k, c, a, again);
      }
    case Delete(logical, k) =>
      if k < |t.Siblings(logical)| {
        DeletedHealthy(t, logical, k);
      }
    case Remove(logical, k) =>
      if k < |t.Siblings(logical)| {
        UnlinkedHealthy(t, logical, k);
      }
    case Minimize(a) =>
      MinimizedHealthy(t, a);
    case Clear =>
      NothingHealthy(t);
  }

  lemma AddHealthy(t: Table, ptype: PartType, g: Geom, c: Option<Constraint>, a: Answers, l: Limits)
    requires Healthy(t) && ptype.IsActive() && Sane(t, ptype, l)
    requires AddVerdict(t, ptype, g, c, false, a) == AddVerdict(t, ptype, g, c, false, a.Strict())
    requires AddVerdict(t, ptype, g, c, false, a).Placed?
    ensures Healthy(Added(t, Slot(ptype, AddVerdict(t, ptype, g, c, false, a).geom)))
  {
    hide AddVerdict, Added, ExtIndex, Typed, Sound;
    if t.Ext().Some? {
      SoundOwner(t);
    }
    AddKeepsSound(t, ptype, g, c, a);
    AddedHealthy(t, Slot(ptype, AddVerdict(t, ptype, g, c, false, a).geom));
  }

  /** Both attempts of maximizing: to grow, and to have the old geometry back. */
  lemma GrownHealthy(t: Table, logical: bool, k: nat, c: Option<Constraint>, a: Answers, again: Answers)
    requires Healthy(t) && k < |t.Siblings(logical)|
    requires MovesStrictly(t, logical, k, MaxRequest(t, logical, k), c, a)
    ensures var g := MaxRequest(t, logical, k);
      var v := MoveVerdict(t, t.Siblings(logical)[k].ptype, k, g, c, false, a);
      g.start <= g.end && v.Placed? ==> Healthy(Moved(t, logical, k, v.geom))
    ensures Healthy(MovedTo(t, logical, k, t.Siblings(logical)[k].geom, Some(ConstraintAny(t.length)), again))
  {
    hide Healthy, MoveVerdict, Moved, MaxRequest, MovesStrictly;
    var was, any := t.Siblings(logical)[k].geom, Some(ConstraintAny(t.length));
    MovedToHealthy(t, logical, k, MaxRequest(t, logical, k), c, a);
    StrictOnDevice(t, logical, k, was, any, again);
    MovedToHealthy(t, logical, k, was, any, again);
  }

  lemma UnlinkedHealthy(t: Table, logical: bool, k: nat)
    requires Healthy(t) && k < |t.Siblings(logical)|
    requires t.Siblings(logical)[k].ptype.IsExtended() ==> t.logs == []
    ensures Healthy(Removed(t, logical, k))
  {
    hide ExtIndex;
    RemovedSound(t, logical, k);
    RemovedHealthy(t, logical, k);
  }

  lemma MinimizedHealthy(t: Table, a: Answers)
    requires Healthy(t)
    ensures Healthy(Step(t, Minimize(a), Limits(0, false)))
    ensures forall l :: Step(t, Minimize(a), l) == Step(t, Minimize(a), Limits(0, false))
  {
    hide MovedTo, ExtIndex;
    var e := ExtIndex(t.prims);
    if e >= 0 {
      if t.logs == [] {
        RemovedSound(t, false, e);
        RemovedHealthy(t, false, e);
      } else {
        StrictOnDevice(t, false, e, Hull(t.logs), Some(ConstraintAny(t.length)), a);
        MovedToHealthy(t, false, e, Hull(t.logs), Some(ConstraintAny(t.length)), a);
      }
    }
  }

  lemma NothingHealthy(t: Table)
    requires Healthy(t)
    ensures Healthy(t.(prims := [], logs := []))
  {
  }

  /** Safety over whole runs: however long the script of proper edits, the
      lists stay sorted, disjoint, inside their bounds, with one extended
      partition at most. */
  lemma {:induction false} RunHealthy(t: Table, edits: seq<Edit>, l: Limits)
    requires Healthy(t) && ProperRun(t, edits, l)
    ensures Healthy(Run(t, edits, l))
    decreases edits
  {
    if edits != [] {
      StepHealthy(t, edits[0], l);
      RunHealthy(Step(t, edits[0], l), edits[1..], l);
    }
  }

  // ----- Scripts that are proper in every state -----

  /** The constraint ends on a device of that length, or its end is not ignored. */
  predicate OnDevice(logical: bool, c: Option<Constraint>, a: Answers, length: int) {
    a.ignoreOutsideDisk ==> logical || c.None? || c.value.endRange.end < length
  }

  /** What a caller can see without the state: the handler does not ignore an
      overlap where one is added, nor the end of the device where a constraint
      leads beyond it, and no partition is taken out without its logicals. */
  predicate Bounded(e: Edit, length: int) {
    match e
    case Add(ptype, g, c, a) =>
      ptype.IsActive() && g.Valid() && (a.ignoreOverlap ==> c.None?) && OnDevice(ptype.logical, c, a, length)
    case SetGeom(logical, _, c, _, _, a) => OnDevice(logical, c, a, length)
    case Maximize(logical, _, c, a, _) => OnDevice(logical, c, a, length)
    case GetMax(logical, _, c, a, _, _) => OnDevice(logical, c, a, length)
    case Remove(logical, _) => logical
    case _ => true
  }

  lemma BoundedProper(t: Table, e: Edit, l: Limits)
    requires Healthy(t) && Bounded(e, t.length)
    ensures Proper(t, e, l)
  {
    hide MoveVerdict, AddVerdict, ExtIndex, MaxRequest, MovesStrictly, Sound;
    match e
    case Add(ptype, g, c, a) =>
      if Sane(t, ptype, l) {
        AddIsStrict(t, ptype, g, c, a);
      }
    case SetGeom(logical, k, c, start, end, a) =>
      if k < |t.Siblings(logical)| {
        StrictOnDevice(t, logical, k, Geom(start, end), c, a);
      }
    case Maximize(logical, k, c, a, _) =>
      if k < |t.Siblings(logical)| {
        StrictOnDevice(t, logical, k, MaxRequest(t, logical, k), c, a);
      }
    case GetMax(logical, k, c, a, _, _) =>
      if k < |t.Siblings(logical)| {
        StrictOnDevice(t, logical, k, MaxRequest(t, logical, k), c, a);
      }
    case Remove(logical, k) =>
      if k < |t.Siblings(logical)| {
        LogicalOwned(t, logical, k);
      }
    case _ =>
  }

  lemma StepLength(t: Table, e: Edit, l: Limits)
    ensures Step(t, e, l).length == t.length
  {
    hide MoveVerdict, AddVerdict, ExtIndex, MaxRequest, Sane, Insert, Without, Hull, LabelAccepts;
  }

  /** A script of bounded edits is proper, whatever the states it leads through. */
  lemma {:induction false} BoundedRun(t: Table, edits: seq<Edit>, l: Limits)
    requires Healthy(t) && forall e :: e in edits ==> Bounded(e, t.length)
    ensures ProperRun(t, edits, l)
    decreases edits
  {
    hide Healthy, Bounded, Proper, Step;
    if edits != [] {
      BoundedProper(t, edits[0], l);
      StepHealthy(t, edits[0], l);
      StepLength(t, edits[0], l);
      BoundedRun(Step(t, edits[0], l), edits[1..], l);
    }
  }

  /** Ignoring the end of the device is all that can make a move improper: the
      moves that keep a table healthy are the strict ones. */
  lemma MovesStrictlyIff(t: Table, logical: bool, k: nat, g: Geom, c: Option<Constraint>, a: Answers)
    requires Healthy(t) && k < |t.Siblings(logical)| && g.start <= g.end
    ensures Healthy(MovedTo(t, logical, k, g, c, a)) <==> MovesStrictly(t, logical, k, g, c, a)
  {
    hide Healthy, Sound, Moved, ExtIndex, RoomWindow, Narrow, Fits;
    if MovesStrictly(t, logical, k, g, c, a) {
      MovedToHealthy(t, logical, k, g, c, a);
    } else {
      var v := MoveVerdict(t, t.Siblings(logical)[k].ptype, k, g, c, false, a);
      assert v.Placed? && v.geom.end >= t.length && a.ignoreOutsideDisk;
      LogicalOwned(t, logical, k);
      HealthySound(t);
      if Healthy(Moved(t, logical, k, v.geom)) {
        HealthySound(Moved(t, logical, k, v.geom));
        MovedSoundIff(t, logical, k, v.geom);
        EndsOnDevice(t, logical, k, v.geom);
      }
    }
  }

  lemma EndsOnDevice(t: Table, logical: bool, k: nat, g: Geom)
    requires Sound(t) && Fits(t, logical, k, g) && (logical ==> t.Ext().Some?)
    ensures g.end < t.length
  {
    if t.Ext().Some? {
      OwnerOnDevice(t);
    }
  }

  // ----- Adding, and the limits of the label -----

  /** Exactly when a request for exactly g adds a partition: the label knows the
      type, has a slot left for a primary, gives a number, answers and accepts
      g; there is room for g; a logical has an extended partition, and an
      extended one no rival.  Otherwise nothing happens. */
  lemma AddStepIff(t: Table, ptype: PartType, g: Geom, a: Answers, l: Limits)
    requires Healthy(t) && ptype.IsActive() && g.Valid() && a == a.Strict()
    ensures Step(t, Add(ptype, g, Some(ConstraintExact(g, t.length)), a), l) ==
      if && a.numbered && a.aligned == Some(g) && a.accepted
         && (if ptype == EXTENDED then l.hasExtended && t.Ext().None?
             else if ptype == PartType(true, false, false, false) then l.hasExtended && t.Ext().Some?
             else ptype.logical ==> t.Ext().Some?)
         && (ptype.logical || |t.prims| < l.maxPrimaries)
         && Fits(t, ptype.logical, -1, g)
      then Added(t, Slot(ptype, g)) else t
  {
    hide AddVerdict, ExtIndex, Sound, Typed, Fits, Added;
    if ptype.logical ==> t.Ext().Some? {
      AddExactIff(t, ptype, g, a);
      assert ptype.IsExtended() <==> ptype == EXTENDED;
    } else {
      assert !Sane(t, ptype, l);
    }
  }

  /** Where an edit moves partition k, when the handler ignores nothing that
      matters: to the geometry that is granted, or nowhere. */
  lemma MovedToIff(t: Table, logical: bool, k: nat, g: Geom, c: Constraint, a: Answers)
    requires Healthy(t) && k < |t.Siblings(logical)| && a == a.Strict()
    ensures (forall h :: g.start <= g.end && MoveGranted(t, logical, k, g, c, a, h) ==>
      MovedTo(t, logical, k, g, Some(c), a) == Moved(t, logical, k, h))
    ensures (forall h :: !MoveGranted(t, logical, k, g, c, a, h)) || g.start > g.end ==>
      MovedTo(t, logical, k, g, Some(c), a) == t
  {
    LogicalOwned(t, logical, k);
    KindOf(t, logical, k);
    hide MoveVerdict, MoveGranted, Moved, Typed, Sound;
    var v := MoveVerdict(t, t.Siblings(logical)[k].ptype, k, g, Some(c), false, a);
    forall h
      ensures v == Placed(h) <==> MoveGranted(t, logical, k, g, c, a, h)
    {
      MovePlacedIff(t, logical, k, g, c, a, h);
    }
  }

  lemma KindOf(t: Table, logical: bool, k: nat)
    requires Healthy(t) && k < |t.Siblings(logical)|
    ensures t.Siblings(logical)[k].ptype.IsActive()
  {
  }

  /** Every moving edit goes where it is granted: maximizing tries the largest
      request first and the old geometry next, and minimizing the hull. */
  lemma GrantedSteps(t: Table, logical: bool, k: nat, c: Constraint, a: Answers, again: Answers, h: Geom, l: Limits)
    requires Healthy(t) && k < |t.Siblings(logical)| && a == a.Strict() && again == again.Strict()
    ensures var g := MaxRequest(t, logical, k);
      g.start <= g.end && MoveGranted(t, logical, k, g, c, a, h) ==>
        Step(t, Maximize(logical, k, Some(c), a, again), l) == Moved(t, logical, k, h)
    ensures var g, was, any := MaxRequest(t, logical, k), t.Siblings(logical)[k].geom, ConstraintAny(t.length);
      (forall x :: !MoveGranted(t, logical, k, g, c, a, x)) ==>
        && (MoveGranted(t, logical, k, was, any, again, h) ==>
              Step(t, Maximize(logical, k, Some(c), a, again), l) == Moved(t, logical, k, h))
        && ((forall x :: !MoveGranted(t, logical, k, was, any, again, x)) ==>
              Step(t, Maximize(logical, k, Some(c), a, again), l) == t)
  {
    var g, was, any := MaxRequest(t, logical, k), t.Siblings(logical)[k].geom, ConstraintAny(t.length);
    OnTheDevice(t, logical, k);
    MaximizeStep(t, logical, k, c, a, again, l);
    MovedToIff(t, logical, k, g, c, a);
    MovedToIff(t, logical, k, was, any, again);
    hide Healthy, Step, MaxRequest, MoveGranted, Moved, MoveVerdict;
    GrantedIsPlaced(t, logical, k, g, c, a);
  }

  /** Set geometry asks once. */
  lemma GrantedSetGeom(t: Table, logical: bool, k: nat, c: Constraint, start: nat, end: int, a: Answers, h: Geom,
      l: Limits)
    requires Healthy(t) && k < |t.Siblings(logical)| && a == a.Strict()
    ensures var e, g := SetGeom(logical, k, Some(c), start, end, a), Geom(start, end);
      && (start <= end && MoveGranted(t, logical, k, g, c, a, h) ==> Step(t, e, l) == Moved(t, logical, k, h))
      && (start > end || (forall x :: !MoveGranted(t, logical, k, g, c, a, x)) ==> Step(t, e, l) == t)
  {
    hide MoveGranted, Moved, MovedTo;
    MovedToIff(t, logical, k, Geom(start, end), c, a);
  }

  /** get_max_partition_geometry undoes what was granted if it can. */
  lemma GrantedGetMax(t: Table, logical: bool, k: nat, c: Constraint, a: Answers, again: Answers, back: Answers,
      h: Geom, l: Limits)
    requires Healthy(t) && k < |t.Siblings(logical)| && a == a.Strict()
    ensures var e, g := GetMax(logical, k, Some(c), a, again, back), MaxRequest(t, logical, k);
      && (g.start <= g.end && MoveGranted(t, logical, k, g, c, a, h) ==>
            Step(t, e, l) == if LabelAccepts(back, t.Siblings(logical)[k].geom) then t else Moved(t, logical, k, h))
      && (g.start > g.end || (forall x :: !MoveGranted(t, logical, k, g, c, a, x)) ==>
            Step(t, e, l) == Step(t, Maximize(logical, k, Some(c), a, again), l))
  {
    LogicalOwned(t, logical, k);
    KindOf(t, logical, k);
    hide Healthy, MoveGranted, Moved, MovedTo, MaxRequest, MoveVerdict;
    var g := MaxRequest(t, logical, k);
    GrantedIsPlaced(t, logical, k, g, c, a);
    HealthySound(t);
    MovePlacedIff(t, logical, k, g, c, a, h);
  }

  /** Minimizing asks for the hull of the logicals; without any it removes the
      extended partition. */
  lemma GrantedMinimize(t: Table, a: Answers, h: Geom, l: Limits)
    requires Healthy(t) && a == a.Strict() && t.Ext().Some?
    ensures t.logs == [] ==> Step(t, Minimize(a), l) == Removed(t, false, ExtIndex(t.prims))
    ensures t.logs != [] ==>
      var e, any := ExtIndex(t.prims), ConstraintAny(t.length);
      && (MoveGranted(t, false, e, Hull(t.logs), any, a, h) ==> Step(t, Minimize(a), l) == Moved(t, false, e, h))
      && ((forall x :: !MoveGranted(t, false, e, Hull(t.logs), any, a, x)) ==> Step(t, Minimize(a), l) == t)
  {
    if t.logs != [] {
      LogicalOwned(t, true, 0);
      HullIsSmallest(t.logs, t.Ext().value.start, t.Ext().value.end, t.Ext().value);
      hide MoveGranted, Moved, MovedTo;
      MovedToIff(t, false, ExtIndex(t.prims), Hull(t.logs), ConstraintAny(t.length), a);
    }
  }

  lemma GrantedIsPlaced(t: Table, logical: bool, k: nat, g: Geom, c: Constraint, a: Answers)
    requires Healthy(t) && k < |t.Siblings(logical)| && a == a.Strict()
    ensures var v := MoveVerdict(t, t.Siblings(logical)[k].ptype, k, g, Some(c), false, a);
      v.Placed? <==> exists h :: MoveGranted(t, logical, k, g, c, a, h)
  {
    LogicalOwned(t, logical, k);
    KindOf(t, logical, k);
    hide MoveVerdict, MoveGranted, Moved, Typed, Sound;
    forall h
      ensures MoveVerdict(t, t.Siblings(logical)[k].ptype, k, g, Some(c), false, a) == Placed(h)
         <==> MoveGranted(t, logical, k, g, c, a, h)
    {
      MovePlacedIff(t, logical, k, g, c, a, h);
    }
  }

  lemma MaximizeStep(t: Table, logical: bool, k: nat, c: Constraint, a: Answers, again: Answers, l: Limits)
    requires k < |t.Siblings(logical)|
    ensures var x, g := t.Siblings(logical)[k], MaxRequest(t, logical, k);
      var v := MoveVerdict(t, x.ptype, k, g, Some(c), false, a);
      Step(t, Maximize(logical, k, Some(c), a, again), l)
      == if g.start <= g.end && v.Placed? then MovedTo(t, logical, k, g, Some(c), a)
         else MovedTo(t, logical, k, x.geom, Some(ConstraintAny(t.length)), again)
  {
    hide MaxRequest, MoveVerdict, Moved;
  }

  /** A rejected set geometry is harmful exactly when the request, if the label
      finds nothing for it, or else what the label finds, is not harmless; one
      that meets no window leaves nothing behind. */
  lemma HarmsIff(t: Table, logical: bool, k: nat, c: Constraint, start: nat, end: int, a: Answers)
    requires k < |t.Siblings(logical)| && start <= end
    ensures var e, x := SetGeom(logical, k, Some(c), start, end, a), t.Siblings(logical)[k];
      var w, v := RoomWindow(t, x.ptype, k, start), MoveVerdict(t, x.ptype, k, Geom(start, end), Some(c), false, a);
      Harms(t, e) <==>
        && !NoMeeting(w, c) && !v.Placed?
        && !Harmless(t, logical, k, if Answered(w, c, a.aligned) then a.aligned.value else Geom(start, end))
  {
    HarmlessThere(t, logical, k);
    hide MoveVerdict, Harmless, RoomWindow, NoMeeting;
    MoveFails(t, logical, k, Geom(start, end), c, a);
  }

  lemma HarmlessThere(t: Table, logical: bool, k: nat)
    requires k < |t.Siblings(logical)|
    ensures Harmless(t, logical, k, t.Siblings(logical)[k].geom)
  {
  }

  /** Each list has slots of its own kind. */
  predicate OwnKind(t: Table) {
    (forall x | x in t.prims :: !x.ptype.logical) && (forall x | x in t.logs :: x.ptype.logical)
  }

  /** The limit on primaries is kept by every run, proper or not. */
  lemma {:induction false} RunWithinLimit(t: Table, edits: seq<Edit>, l: Limits)
    requires OwnKind(t) && |t.prims| <= l.maxPrimaries
    ensures |Run(t, edits, l).prims| <= l.maxPrimaries
    decreases edits
  {
    hide Step, OwnKind;
    if edits != [] {
      StepWithinLimit(t, edits[0], l);
      RunWithinLimit(Step(t, edits[0], l), edits[1..], l);
    }
  }

  /** An edit adds no primary beyond the limit. */
  lemma StepWithinLimit(t: Table, e: Edit, l: Limits)
    requires OwnKind(t)
    ensures OwnKind(Step(t, e, l))
    ensures |Step(t, e, l).prims| <= |t.prims| || |Step(t, e, l).prims| <= l.maxPrimaries
  {
    hide MoveVerdict, AddVerdict, ExtIndex, MaxRequest, Hull, LabelAccepts, Moved, Removed, Added, OwnKind, Deleted;
    forall logical: bool, k: nat, g: Geom | k < |t.Siblings(logical)|
      ensures OwnKind(Moved(t, logical, k, g)) && |Moved(t, logical, k, g).prims| == |t.prims|
    {
      MovedKind(t, logical, k, g);
    }
    match e
    case Add(ptype, g, c, a) => AddedKind(t, Slot(ptype, GeomAt(AddVerdict(t, ptype, g, c, false, a), g, g)));
    case Delete(_, _) => WithoutLogs(t, e);
    case Remove(logical, k) =>
      if k < |t.Siblings(logical)| {
        UnlinkedKind(t, logical, k);
      }
    case Minimize(_) => OwnerKind(t);
    case Clear => NoSlots(t);
    case _ =>
  }

  lemma OwnerKind(t: Table)
    requires OwnKind(t)
    ensures var e := ExtIndex(t.prims);
      e >= 0 ==> e < |t.prims| && OwnKind(Removed(t, false, e)) && |Removed(t, false, e).prims| <= |t.prims|
  {
    var e := ExtIndex(t.prims);
    if e >= 0 {
      UnlinkedKind(t, false, e);
    }
  }

  lemma WithoutLogs(t: Table, e: Edit)
    requires OwnKind(t)
    ensures OwnKind(t.(prims := [], logs := [])) && OwnKind(t.(logs := []))
    ensures e.Delete? && e.k < |t.Siblings(e.logical)| ==>
      OwnKind(Deleted(t, e.logical, e.k)) && |Deleted(t, e.logical, e.k).prims| <= |t.prims|
  {
    hide OwnKind, Removed;
    NoSlots(t);
    if e.Delete? && e.k < |t.Siblings(e.logical)| {
      var u := if t.Siblings(e.logical)[e.k].ptype.IsExtended() then t.(logs := []) else t;
      if e.k < |u.Siblings(e.logical)| {
        UnlinkedKind(u, e.logical, e.k);
      }
    }
  }

  lemma NoSlots(t: Table)
    requires OwnKind(t)
    ensures OwnKind(t.(prims := [], logs := [])) && OwnKind(t.(logs := []))
  {
  }

  lemma UnlinkedKind(t: Table, logical: bool, k: nat)
    requires OwnKind(t) && k < |t.Siblings(logical)|
    ensures OwnKind(Removed(t, logical, k))
    ensures |Removed(t, logical, k).prims| == if logical then |t.prims| else |t.prims| - 1
    ensures t.Siblings(logical)[k].ptype.logical == logical
  {
  }

  lemma AddedKind(t: Table, x: Slot)
    requires OwnKind(t)
    ensures OwnKind(Added(t, x)) && |Added(t, x).prims| == if x.ptype.logical then |t.prims| else |t.prims| + 1
  {
    hide InsertPos;
  }

  lemma MovedKind(t: Table, logical: bool, k: nat, g: Geom)
    requires OwnKind(t) && k < |t.Siblings(logical)|
    ensures OwnKind(Moved(t, logical, k, g)) && |Moved(t, logical, k, g).prims| == |t.prims|
  {
    hide OwnKind, Removed, Added;
    UnlinkedKind(t, logical, k);
    AddedKind(Removed(t, logical, k), t.Siblings(logical)[k].(geom := g));
  }

  // ----- Labels that align by solving -----

  /** With a label that solves its own constraint with the caller's, no move
      owes its success to an IGNORE: its answers end on the device. */
  lemma AttemptsAreStrict(t: Table, logical: bool, k: nat, g: Geom, c: Option<Constraint>, a: Answers,
      external: Constraint, internal: Constraint, from: Geom)
    requires k < |t.Siblings(logical)|
    requires Formed(external) && SmallGrains(external) && Formed(internal) && SmallGrains(internal)
    requires a.aligned == AttemptAlign(Some(external), Some(internal), t.length, from)
    ensures MovesStrictly(t, logical, k, g, c, a)
  {
    hide ExtIndex, RoomWindow, Narrow, AttemptAlign;
    AttemptSolves(external, internal, t.length, from);
  }

  /** With such a label get_max_partition_geometry brings the old geometry back
      exactly when it solves the label's own constraint and ends neither at
      sector 0 nor in front of the smallest size: then the table is what it was. */
  lemma GetMaxRestores(t: Table, logical: bool, k: nat, c: Option<Constraint>, a: Answers, again: Answers,
      back: Answers, internal: Constraint, l: Limits)
    requires Healthy(t) && k < |t.Siblings(logical)| && Formed(internal) && SmallGrains(internal)
    requires MovesStrictly(t, logical, k, MaxRequest(t, logical, k), c, a)
    requires MaxRequest(t, logical, k).start <= MaxRequest(t, logical, k).end
    requires MoveVerdict(t, t.Siblings(logical)[k].ptype, k, MaxRequest(t, logical, k), c, false, a).Placed?
    requires var x, g := t.Siblings(logical)[k], MaxRequest(t, logical, k);
      var u := Moved(t, logical, k, MoveVerdict(t, x.ptype, k, g, c, false, a).geom);
      var v := MoveVerdict(t, x.ptype, k, g, c, false, a).geom;
      var window := RoomWindow(u, x.ptype, MovedIndex(t, logical, k, v), x.geom.start);
      var external := Narrow(window, Some(ConstraintExact(x.geom, t.length)));
      && back.accepted && (external.Some? ==> SmallGrains(external.value))
      && back.aligned == AttemptAlign(external, Some(internal), t.length, x.geom)
    ensures var x := t.Siblings(logical)[k];
      LabelAccepts(back, x.geom) <==>
        internal.IsSolution(x.geom) && x.geom.end >= internal.minSize && x.geom.end >= 1
    ensures LabelAccepts(back, t.Siblings(logical)[k].geom) ==>
      Step(t, GetMax(logical, k, c, a, again, back), l) == t
  {
    hide Healthy, Sound, MoveVerdict, Moved, RoomWindow, Narrow, AttemptAlign, MaxRequest, ExtIndex, MovedTo;
    var x, g := t.Siblings(logical)[k], MaxRequest(t, logical, k);
    var v := MoveVerdict(t, x.ptype, k, g, c, false, a).geom;
    LogicalOwned(t, logical, k);
    HealthySound(t);
    OnTheDevice(t, logical, k);
    MoveKeepsSound(t, k, logical, g, c, a);
    WindowHoldsOld(t, logical, k, v);
    var window := RoomWindow(Moved(t, logical, k, v), x.ptype, MovedIndex(t, logical, k, v), x.geom.start);
    AttemptExact(window.value, internal, t.length, x.geom);
  }

  lemma OnTheDevice(t: Table, logical: bool, k: nat)
    requires Healthy(t) && k < |t.Siblings(logical)|
    ensures t.Siblings(logical)[k].geom.Valid() && t.Siblings(logical)[k].geom.end < t.length
  {
    hide ExtIndex;
    LogicalOwned(t, logical, k);
    MemberValid(t, logical, k);
    if !logical {
      MemberIn(t.prims, k, 0, t.length - 1);
    } else {
      MemberIn(t.logs, k, t.Ext().value.start, t.Ext().value.end);
    }
  }
}
