// What the verdicts of Placement mean: when a partition is placed, and why not.

module Verdicts {
  import opened Common
  import opened Geometry
  import opened Layout
  import opened Placement
  import opened Soundness

  // ----- The exceptions -----

  /** What _check_partition may complain about; the handler may ignore it. */
  datatype Complaint = OutsideExtended | InsideExtended | OutsideDisk

  /** A partition of that type at g draws the complaint; others stands for the
      extended partition, unless it is the one that is checked. */
  predicate Raised(c: Complaint, t: Table, ptype: PartType, others: Option<Geom>, g: Geom) {
    match c
    case OutsideExtended => ptype.logical && (t.Ext().None? || !g.Inside(t.Ext().value))
    case InsideExtended => !ptype.logical && others.Some? && g.Inside(others.value)
    case OutsideDisk => g.end >= t.length
  }

  predicate Ignores(a: Answers, c: Complaint) {
    match c
    case OutsideExtended => a.ignoreOutsideExtended
    case InsideExtended => a.ignoreInsideExtended
    case OutsideDisk => a.ignoreOutsideDisk
  }

  /** The extended partition, but for partition self of that type. */
  function Others(t: Table, ptype: PartType, self: int): Option<Geom> {
    if ptype.IsExtended() && ExtIndex(t.prims) == self then None else t.Ext()
  }

  /** Each complaint a partition draws is ignored, the label accepts it, and an
      extended one holds all logicals and has no rival. */
  ghost predicate Passes(t: Table, ptype: PartType, self: int, g: Geom, a: Answers) {
    && (forall c :: Raised(c, t, ptype, Others(t, ptype, self), g) ==> Ignores(a, c))
    && (ptype.metadata || a.accepted)
    && (ptype.IsExtended() ==> Others(t, ptype, self).None? && forall x | x in t.logs :: x.geom.Inside(g))
  }

  lemma CheckedIff(t: Table, ptype: PartType, self: int, g: Geom, a: Answers)
    requires -1 <= self
    ensures Checked(t, ptype, self, g, a) <==> Passes(t, ptype, self, g, a)
  {
    hide ExtIndex;
    var o := Others(t, ptype, self);
    if forall c :: Raised(c, t, ptype, o, g) ==> Ignores(a, c) {
      assert Raised(OutsideExtended, t, ptype, o, g) ==> a.ignoreOutsideExtended;
      assert Raised(InsideExtended, t, ptype, o, g) ==> a.ignoreInsideExtended;
      assert Raised(OutsideDisk, t, ptype, o, g) ==> a.ignoreOutsideDisk;
    }
    assert forall i :: 0 <= i < |t.logs| ==> t.logs[i] in t.logs;
  }

  // ----- Adding -----

  /** When an active partition that is aligned is placed at h, by a handler that
      ignores neither an overlap nor the end of the device: a number is given,
      the label answers h, a solution within the window, where there is room for
      it, and accepts it, and it is not a second extended partition. */
  lemma AddPlacedIff(t: Table, ptype: PartType, g: Geom, c: Constraint, a: Answers, h: Geom)
    requires Sound(t) && t.length <= LLONG_MAX && ptype.IsActive() && (ptype.logical ==> t.Ext().Some?)
    requires a == a.Strict()
    ensures var w := RoomWindow(t, ptype, -1, g.start);
      AddVerdict(t, ptype, g, Some(c), false, a) == Placed(h) <==>
        && a.numbered && a.aligned == Some(h) && a.accepted
        && h.Valid() && c.IsSolution(h) && w.Some? && h.Inside(w.value)
        && Fits(t, ptype.logical, -1, h) && (ptype.IsExtended() ==> t.Ext().None?)
  {
    var w := RoomWindow(t, ptype, -1, g.start);
    NewRivals(t, ptype);
    hide ExtIndex, RoomWindow, Narrow, FreeOfOthers, Sound, Checked, Fits, Others;
    if a.aligned.Some? && a.aligned.value.Valid() {
      var k := a.aligned.value;
      if w.Some? {
        NarrowSolutions(w.value, c, k);
        if c.IsSolution(k) && k.Inside(w.value) {
          SolutionFits(t, ptype, -1, g.start, Some(c), k);
          FreeChecked(t, ptype, -1, k, a);
        }
      }
      NoWindowNarrows(c);
    }
  }

  /** A new partition is its own extended one if there is none. */
  lemma NewRivals(t: Table, ptype: PartType)
    requires Sound(t)
    ensures Others(t, ptype, -1).None? <==> t.Ext().None?
    ensures t.Ext().None? ==> t.logs == []
  {
  }

  lemma NoWindowNarrows(c: Constraint)
    ensures Narrow(None, Some(c)) == None
  {
  }

  /** In free sectors of its room only the end of the device, the label and a
      rival can stand in the way of a partition. */
  lemma FreeChecked(t: Table, ptype: PartType, self: int, h: Geom, a: Answers)
    requires Sound(t) && ptype.IsActive() && h.Valid() && (ptype.logical ==> t.Ext().Some?) && a == a.Strict()
    requires -1 <= self < |t.Siblings(ptype.logical)| && (self >= 0 ==> t.Siblings(ptype.logical)[self].ptype == ptype)
    requires FreeOfOthers(t.Siblings(ptype.logical), self, h) && h.Inside(Room(t, ptype.logical))
    ensures Checked(t, ptype, self, h, a) <==>
      && a.accepted && Fits(t, ptype.logical, self, h)
      && (ptype.IsExtended() ==> Others(t, ptype, self).None? && forall x | x in t.logs :: x.geom.Inside(h))
  {
    hide ExtIndex, FreeOfOthers;
    CheckedIff(t, ptype, self, h, a);
    OwnerOnDevice(t);
    var o, e := Others(t, ptype, self), ExtIndex(t.prims);
    if !ptype.logical && o.Some? && e != self {
      FreeMeans(t.prims, self, h, e);
    }
    if !ptype.logical && self >= 0 && e == self {
      ExtIsOnly(t.prims, self);
    }
    assert Raised(OutsideDisk, t, ptype, o, h) <==> h.end >= t.length;
    assert !Raised(InsideExtended, t, ptype, o, h);
    assert !Raised(OutsideExtended, t, ptype, o, h);
  }

  /** For any handler: where the constraint misses the window and that is
      ignored, it alone counts. */
  lemma AddAlignedIff(t: Table, ptype: PartType, g: Geom, c: Constraint, a: Answers, h: Geom)
    requires ptype.IsActive()
    ensures var w := RoomWindow(t, ptype, -1, g.start);
      AddVerdict(t, ptype, g, Some(c), false, a) == Placed(h) <==>
        && a.numbered && a.aligned == Some(h) && h.Valid() && c.IsSolution(h)
        && (if NoMeeting(w, c) then a.ignoreOverlap else h.Inside(w.value))
        && Passes(t, ptype, -1, h, a)
    ensures !AddVerdict(t, ptype, g, None, false, a).Placed?
  {
    var w := RoomWindow(t, ptype, -1, g.start);
    hide ExtIndex, RoomWindow, Narrow, Checked, Passes;
    MeetingIff(w, c);
    AnsweredIff(w, c, a.aligned);
    CheckedIff(t, ptype, -1, h, a);
    NarrowNothing(w);
  }

  lemma NarrowNothing(w: Option<Geom>)
    ensures Narrow(w, None) == None
  {
  }

  /** In particular a request for exactly g succeeds exactly where g fits. */
  lemma AddExactIff(t: Table, ptype: PartType, g: Geom, a: Answers)
    requires Sound(t) && t.length <= LLONG_MAX && ptype.IsActive() && (ptype.logical ==> t.Ext().Some?)
    requires a == a.Strict() && g.Valid()
    ensures AddVerdict(t, ptype, g, Some(ConstraintExact(g, t.length)), false, a) == Placed(g) <==>
      && a.numbered && a.aligned == Some(g) && a.accepted
      && Fits(t, ptype.logical, -1, g) && (ptype.IsExtended() ==> t.Ext().None?)
    ensures AddVerdict(t, ptype, g, Some(ConstraintExact(g, t.length)), false, a).Placed? ==>
      AddVerdict(t, ptype, g, Some(ConstraintExact(g, t.length)), false, a) == Placed(g)
  {
    var c, s, room := ConstraintExact(g, t.length), t.Siblings(ptype.logical), Room(t, ptype.logical);
    var v := AddVerdict(t, ptype, g, Some(c), false, a);
    AddPlacedIff(t, ptype, g, c, a, g);
    if v.Placed? {
      AddPlacedIff(t, ptype, g, c, a, v.geom);
    }
    if Fits(t, ptype.logical, -1, g) {
      OwnerOnDevice(t);
      BoundsOrdered(t, ptype.logical);
      ExactSolution(g, t.length, g);
      hide ExtIndex, FreeOfOthers, Ordered, Window, AddVerdict;
      WindowHoldsFree(s, g, room.start, room.end);
    }
  }

  /** Why an active partition is not placed. */
  lemma AddFails(t: Table, ptype: PartType, g: Geom, c: Constraint, a: Answers)
    requires Sound(t) && t.length <= LLONG_MAX && ptype.IsActive() && (ptype.logical ==> t.Ext().Some?)
    requires a == a.Strict()
    ensures var w, v := RoomWindow(t, ptype, -1, g.start), AddVerdict(t, ptype, g, Some(c), false, a);
      && (v == Overlap <==> NoMeeting(w, c))
      && (v == Unnumbered <==> !NoMeeting(w, c) && !a.numbered)
      && (v == Unaligned <==> !NoMeeting(w, c) && a.numbered && !Answered(w, c, a.aligned))
      && (v.Refused? ==> Some(v.geom) == a.aligned)
  {
    var w := RoomWindow(t, ptype, -1, g.start);
    hide ExtIndex, RoomWindow, Narrow, Checked;
    MeetingIff(w, c);
    AnsweredIff(w, c, a.aligned);
  }

  /** A partition that is not placed keeps its geometry unless the label has
      found another one for it, in the window and within the constraint. */
  lemma AddUnmodifiedIff(t: Table, ptype: PartType, g: Geom, c: Constraint, a: Answers)
    requires Sound(t) && t.length <= LLONG_MAX && ptype.IsActive() && (ptype.logical ==> t.Ext().Some?)
    requires a == a.Strict() && !AddVerdict(t, ptype, g, Some(c), false, a).Placed?
    ensures var w, v := RoomWindow(t, ptype, -1, g.start), AddVerdict(t, ptype, g, Some(c), false, a);
      GeomAt(v, g, g) == g <==> NoMeeting(w, c) || !a.numbered || !Answered(w, c, a.aligned) || a.aligned == Some(g)
  {
    hide AddVerdict, Sound, NoMeeting, Answered, RoomWindow;
    AddFails(t, ptype, g, c, a);
  }

  /** No region within the window starts and ends in the constraint's ranges. */
  ghost predicate NoMeeting(w: Option<Geom>, c: Constraint) {
    || w.None?
    || (forall x :: w.value.Has(x) ==> !c.startRange.Has(x))
    || (forall x :: w.value.Has(x) ==> !c.endRange.Has(x))
  }

  predicate Answered(w: Option<Geom>, c: Constraint, answer: Option<Geom>) {
    w.Some? && answer.Some? && answer.value.Valid() && c.IsSolution(answer.value) && answer.value.Inside(w.value)
  }

  lemma MeetingIff(w: Option<Geom>, c: Constraint)
    ensures Narrow(w, Some(c)).None? <==> NoMeeting(w, c)
  {
    if w.Some? {
      CommonIff(w.value, c.startRange);
      CommonIff(w.value, c.endRange);
    }
  }

  lemma CommonIff(a: Geom, b: Geom)
    ensures Intersect(a, b).None? <==> forall x :: a.Has(x) ==> !b.Has(x)
  {
    var r := Intersect(a, b);
    assert r.Some? ==> r.value.Has(r.value.start);
  }

  lemma AnsweredIff(w: Option<Geom>, c: Constraint, answer: Option<Geom>)
    ensures Narrow(w, Some(c)).Some? && answer.Some? && answer.value.Valid()
        && Narrow(w, Some(c)).value.IsSolution(answer.value)
       <==> Answered(w, c, answer)
  {
    NoWindowNarrows(c);
    if w.Some? && answer.Some? && answer.value.Valid() {
      NarrowSolutions(w.value, c, answer.value);
    }
  }

  // ----- Moving -----

  /** Partition k, asked to move to g, may go to h: the label answers h, a
      solution within the window around the partition, and accepts it; there is
      room, around the logicals if it is extended. */
  ghost predicate MoveGranted(t: Table, logical: bool, k: nat, g: Geom, c: Constraint, a: Answers, h: Geom)
    requires k < |t.Siblings(logical)|
  {
    var ptype := t.Siblings(logical)[k].ptype;
    var w := RoomWindow(t, ptype, k, g.start);
    && a.aligned == Some(h) && a.accepted
    && h.Valid() && c.IsSolution(h) && w.Some? && h.Inside(w.value)
    && Fits(t, logical, k, h) && (ptype.IsExtended() ==> forall x | x in t.logs :: x.geom.Inside(h))
  }

  lemma MovePlacedIff(t: Table, logical: bool, k: nat, g: Geom, c: Constraint, a: Answers, h: Geom)
    requires Sound(t) && t.length <= LLONG_MAX && (logical ==> t.Ext().Some?) && a == a.Strict()
    requires k < |t.Siblings(logical)| && t.Siblings(logical)[k].ptype.logical == logical
    requires t.Siblings(logical)[k].ptype.IsActive()
    ensures MoveVerdict(t, t.Siblings(logical)[k].ptype, k, g, Some(c), false, a) == Placed(h)
       <==> MoveGranted(t, logical, k, g, c, a, h)
  {
    var ptype := t.Siblings(logical)[k].ptype;
    var w := RoomWindow(t, ptype, k, g.start);
    OwnRival(t, logical, k);
    hide ExtIndex, RoomWindow, Narrow, FreeOfOthers, Sound, Checked, Fits, Others;
    AnsweredIff(w, c, a.aligned);
    if Answered(w, c, a.aligned) {
      SolutionFits(t, ptype, k, g.start, Some(c), a.aligned.value);
      FreeChecked(t, ptype, k, a.aligned.value, a);
    }
  }

  /** While the device needs clobbering, the label is not asked either. */
  lemma MoveClobberIff(t: Table, logical: bool, k: nat, g: Geom, c: Option<Constraint>, a: Answers)
    requires k < |t.Siblings(logical)|
    ensures var ptype := t.Siblings(logical)[k].ptype;
      var v := MoveVerdict(t, ptype, k, g, c, true, a);
      && (v.Placed? <==> (c.None? || !NoMeeting(RoomWindow(t, ptype, k, g.start), c.value))
                         && Passes(t, ptype, k, g, a))
      && (v.Placed? || v.Refused? ==> v.geom == g)
    ensures !MoveVerdict(t, t.Siblings(logical)[k].ptype, k, g, None, false, a).Placed?
  {
    var ptype := t.Siblings(logical)[k].ptype;
    hide ExtIndex, Checked, Passes, RoomWindow, Narrow, NoMeeting;
    CheckedIff(t, ptype, k, g, a);
    if c.Some? {
      MeetingIff(RoomWindow(t, ptype, k, g.start), c.value);
    }
    NarrowNothing(RoomWindow(t, ptype, k, g.start));
  }

  lemma OwnRival(t: Table, logical: bool, k: nat)
    requires Sound(t) && k < |t.Siblings(logical)| && t.Siblings(logical)[k].ptype.logical == logical
    ensures t.Siblings(logical)[k].ptype.IsExtended() ==> Others(t, t.Siblings(logical)[k].ptype, k).None?
  {
    if !logical {
      ExtIsOnly(t.prims, k);
    }
  }

  lemma MoveFails(t: Table, logical: bool, k: nat, g: Geom, c: Constraint, a: Answers)
    requires k < |t.Siblings(logical)|
    ensures var ptype := t.Siblings(logical)[k].ptype;
      var w, v := RoomWindow(t, ptype, k, g.start), MoveVerdict(t, ptype, k, g, Some(c), false, a);
      && (v == Overlap <==> NoMeeting(w, c))
      && (v == Unaligned <==> !NoMeeting(w, c) && !Answered(w, c, a.aligned))
      && (v.Refused? ==> Some(v.geom) == a.aligned) && v != Unnumbered
  {
    var w := RoomWindow(t, t.Siblings(logical)[k].ptype, k, g.start);
    hide ExtIndex, RoomWindow, Narrow, Checked;
    MeetingIff(w, c);
    AnsweredIff(w, c, a.aligned);
  }

  // ----- Without alignment -----

  /** A partition of metadata is placed where it is asked for, whatever is
      there, once it passes. */
  lemma MetadataPlacedIff(t: Table, ptype: PartType, g: Geom, c: Option<Constraint>, clobber: bool, a: Answers)
    requires !ptype.IsActive()
    ensures AddVerdict(t, ptype, g, c, clobber, a) == Placed(g) <==> Passes(t, ptype, -1, g, a)
    ensures AddVerdict(t, ptype, g, c, clobber, a) == Refused(g) <==> !Passes(t, ptype, -1, g, a)
  {
    hide ExtIndex, Checked, Passes;
    CheckedIff(t, ptype, -1, g, a);
  }

  /** While the device needs clobbering, so is an active one, if the constraint
      meets the window, or is missing, or the overlap is ignored. */
  lemma ClobberPlacedIff(t: Table, ptype: PartType, g: Geom, c: Option<Constraint>, a: Answers)
    requires ptype.IsActive()
    ensures AddVerdict(t, ptype, g, c, true, a).Placed? <==>
      && (c.None? || !NoMeeting(RoomWindow(t, ptype, -1, g.start), c.value) || a.ignoreOverlap)
      && a.numbered && Passes(t, ptype, -1, g, a)
    ensures AddVerdict(t, ptype, g, c, true, a).Placed? ==> AddVerdict(t, ptype, g, c, true, a) == Placed(g)
  {
    hide ExtIndex, Checked, Passes, RoomWindow, Narrow, NoMeeting;
    CheckedIff(t, ptype, -1, g, a);
    if c.Some? {
      MeetingIff(RoomWindow(t, ptype, -1, g.start), c.value);
    }
  }
}
