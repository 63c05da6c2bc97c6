// Where the layout invariant and the placeholders are not kept, and exactly when.

module Caveats {
  import opened Common
  import opened Geometry
  import opened Layout
  import opened Placement
  import opened Soundness
  import opened Resizing

  // ----- Overlaps -----

  /** Whatever is answered, and whether or not alignment is skipped: a placed
      partition keeps the table sound exactly when it fits. */
  lemma AddSoundIff(t: Table, ptype: PartType, g: Geom, c: Option<Constraint>, clobber: bool, a: Answers)
    requires Sound(t) && (ptype.logical ==> t.Ext().Some?)
    requires AddVerdict(t, ptype, g, c, clobber, a).Placed?
    ensures var h := AddVerdict(t, ptype, g, c, clobber, a).geom;
      && (clobber || !ptype.IsActive() ==> h == g)
      && (Sound(Added(t, Slot(ptype, h))) <==> Fits(t, ptype.logical, -1, h))
  {
    var h := AddVerdict(t, ptype, g, c, clobber, a).geom;
    assert Checked(t, ptype, -1, h, a);
    if t.Ext().Some? {
      SoundOwner(t);
    }
    hide Sound, RoomWindow, Narrow, ExtIndex, Fits, Added;
    AddedSound(t, Slot(ptype, h));
  }

  /** b is a with other answers of the label; the handler answers the same. */
  predicate SameHandler(a: Answers, b: Answers) {
    && a.ignoreOverlap == b.ignoreOverlap && a.ignoreOutsideDisk == b.ignoreOutsideDisk
    && a.ignoreOutsideExtended == b.ignoreOutsideExtended && a.ignoreInsideExtended == b.ignoreInsideExtended
  }

  /** The label that answers h and accepts it. */
  function Choosing(a: Answers, h: Geom): (b: Answers)
    ensures SameHandler(a, b)
  {
    a.(numbered := true, aligned := Some(h), accepted := true)
  }

  /** A label may choose h: it solves the caller's constraint within the window
      w, or anywhere when there is no window for it and that is ignored, and
      the remaining checks let it pass. */
  predicate Choosable(t: Table, ptype: PartType, self: int, w: Option<Geom>, c: Constraint, ignored: bool,
      a: Answers, h: Geom) {
    && h.Valid() && c.IsSolution(h)
    && (if Narrow(w, Some(c)).Some? then w.Some? && h.Inside(w.value) else ignored)
    && Checked(t, ptype, self, h, Choosing(a, h))
  }

  lemma SettleChoice(t: Table, ptype: PartType, self: int, w: Option<Geom>, c: Constraint, a: Answers, b: Answers,
      g: Geom, ignored: bool)
    requires SameHandler(a, b) && (Narrow(w, Some(c)).Some? || ignored)
    requires Settle(t, ptype, self, g, if Narrow(w, Some(c)).None? then Some(c) else Narrow(w, Some(c)), false,
        b).Placed?
    ensures Choosable(t, ptype, self, w, c, ignored, a,
                      Settle(t, ptype, self, g, if Narrow(w, Some(c)).None? then Some(c) else Narrow(w, Some(c)),
                          false, b).geom)
  {
    hide Narrow, ExtIndex;
    if w.Some? && b.aligned.Some? && b.aligned.value.Valid() {
      NarrowSolutions(w.value, c, b.aligned.value);
    }
    NoWindow(c);
  }

  lemma NoWindow(c: Constraint)
    ensures Narrow(None, Some(c)) == None
  {
  }

  lemma SettleChosen(t: Table, ptype: PartType, self: int, w: Option<Geom>, c: Constraint, a: Answers, h: Geom,
      g: Geom, ignored: bool)
    requires Choosable(t, ptype, self, w, c, ignored, a, h)
    ensures Settle(t, ptype, self, g, if Narrow(w, Some(c)).None? then Some(c) else Narrow(w, Some(c)), false,
        Choosing(a, h)) == Placed(h)
  {
    hide Narrow, ExtIndex;
    if w.Some? {
      NarrowSolutions(w.value, c, h);
    }
  }

  /** Whatever the label answers, add keeps the table sound. */
  ghost predicate AddIsSafe(t: Table, ptype: PartType, g: Geom, c: Constraint, a: Answers) {
    forall b: Answers :: SameHandler(a, b) && AddVerdict(t, ptype, g, Some(c), false, b).Placed? ==>
      Sound(Added(t, Slot(ptype, AddVerdict(t, ptype, g, Some(c), false, b).geom)))
  }

  /** Aligned adding is safe, whatever the label answers, exactly when neither
      failing branch has an input: a window that the constraint meets, and
      IGNORE at the end of the device for a solution that reaches beyond it; or
      no such window, IGNORE at the overlap, and a solution where there is no
      room. */
  lemma AddSafeIff(t: Table, ptype: PartType, g: Geom, c: Constraint, a: Answers)
    requires Sound(t) && t.length <= LLONG_MAX && ptype.IsActive() && (ptype.logical ==> t.Ext().Some?)
    ensures var w := RoomWindow(t, ptype, -1, g.start);
      AddIsSafe(t, ptype, g, c, a) <==>
        if Narrow(w, Some(c)).Some? then
          ptype.logical || !a.ignoreOutsideDisk
          || forall h :: Choosable(t, ptype, -1, w, c, a.ignoreOverlap, a, h) ==> h.end < t.length
        else
          !a.ignoreOverlap
          || forall h :: Choosable(t, ptype, -1, w, c, a.ignoreOverlap, a, h) ==> Fits(t, ptype.logical, -1, h)
  {
    hide Sound, RoomWindow, Narrow, ExtIndex, Fits, Added, Choosable, Settle, Choosing;
    var w := RoomWindow(t, ptype, -1, g.start);
    forall h | Choosable(t, ptype, -1, w, c, a.ignoreOverlap, a, h)
      ensures Narrow(w, Some(c)).Some? ==>
        (Fits(t, ptype.logical, -1, h) <==> ptype.logical || h.end < t.length)
        && (!a.ignoreOutsideDisk ==> h.end < t.length)
      ensures Narrow(w, Some(c)).None? ==> a.ignoreOverlap
      ensures AddVerdict(t, ptype, g, Some(c), false, Choosing(a, h)) == Placed(h)
      ensures Sound(Added(t, Slot(ptype, h))) <==> Fits(t, ptype.logical, -1, h)
    {
      ChoiceFits(t, ptype, g, c, a, h);
    }
    forall b: Answers | SameHandler(a, b) && AddVerdict(t, ptype, g, Some(c), false, b).Placed?
      ensures Choosable(t, ptype, -1, w, c, a.ignoreOverlap, a, AddVerdict(t, ptype, g, Some(c), false, b).geom)
    {
      SettleChoice(t, ptype, -1, w, c, a, b, g, a.ignoreOverlap);
    }
  }

  lemma ChoiceFits(t: Table, ptype: PartType, g: Geom, c: Constraint, a: Answers, h: Geom)
    requires Sound(t) && t.length <= LLONG_MAX && ptype.IsActive() && (ptype.logical ==> t.Ext().Some?)
    requires Choosable(t, ptype, -1, RoomWindow(t, ptype, -1, g.start), c, a.ignoreOverlap, a, h)
    ensures var w := RoomWindow(t, ptype, -1, g.start);
      && (Narrow(w, Some(c)).Some? ==>
            (Fits(t, ptype.logical, -1, h) <==> ptype.logical || h.end < t.length)
            && (!a.ignoreOutsideDisk ==> h.end < t.length))
      && (Narrow(w, Some(c)).None? ==> a.ignoreOverlap)
      && AddVerdict(t, ptype, g, Some(c), false, Choosing(a, h)) == Placed(h)
      && (Sound(Added(t, Slot(ptype, h))) <==> Fits(t, ptype.logical, -1, h))
  {
    if t.Ext().Some? {
      SoundOwner(t);
    }
    var w := RoomWindow(t, ptype, -1, g.start);
    assert ptype.IsExtended() ==> t.Ext().None?;
    assert !a.ignoreOutsideDisk ==> h.end < t.length;
    hide Sound, RoomWindow, Narrow, ExtIndex, Added, Settle, FreeOfOthers, Window, Checked;
    SettleChosen(t, ptype, -1, w, c, a, h, g, a.ignoreOverlap);
    AddedSound(t, Slot(ptype, h));
    if Narrow(w, Some(c)).Some? {
      NarrowSolutions(w.value, c, h);
      SolutionFits(t, ptype, -1, g.start, Some(c), h);
    }
  }

  /** Only a place that fits can keep the table sound. */
  lemma MovedOnlyWhereFits(t: Table, logical: bool, k: nat, g: Geom)
    requires Sound(t) && k < |t.Siblings(logical)| && t.Siblings(logical)[k].ptype.logical == logical
    requires (logical ==> t.Ext().Some? && t.Ext().value.start >= 0) && Sound(Moved(t, logical, k, g))
    ensures Fits(t, logical, k, g)
  {
    hide ExtIndex, Ordered, FreeOfOthers, AtMostOneExtended, InsertPos, Without, With;
    var s, b := t.Siblings(logical), Bounds(t, logical);
    MovedRoom(t, logical, k, g);
    FreeOfRest(s, k, g);
    assert Ordered(s, b.start, b.end);
    WithoutKeepsOrder(s, k, b.start, b.end);
    InsertOrdered(Without(s, k), s[k].(geom := g), b.start, b.end);
  }

  lemma MovedOwner(t: Table, k: nat, g: Geom)
    requires Sound(t) && k < |t.prims| && t.prims[k].ptype.IsExtended() && Sound(Moved(t, false, k, g))
    ensures forall i :: 0 <= i < |t.logs| ==> t.logs[i].geom.Inside(g)
  {
    hide ExtIndex, Ordered, AtMostOneExtended, InsertPos;
    var o := Without(t.prims, k);
    ExtIsOnly(t.prims, k);
    ExtWithout(t.prims, k);
    ExtWith(o, InsertPos(o, g.end), t.prims[k].(geom := g));
    OrderedStarts(t.logs, g.start, g.end);
  }

  /** A move keeps the table sound exactly when the new place fits, and when an
      extended partition still holds its logicals. */
  lemma MovedSoundIff(t: Table, logical: bool, k: nat, g: Geom)
    requires Sound(t) && k < |t.Siblings(logical)| && t.Siblings(logical)[k].ptype.logical == logical
    requires logical ==> t.Ext().Some?
    ensures Sound(Moved(t, logical, k, g)) <==>
      && Fits(t, logical, k, g)
      && (t.Siblings(logical)[k].ptype.IsExtended() ==> forall i :: 0 <= i < |t.logs| ==> t.logs[i].geom.Inside(g))
  {
    if t.Ext().Some? {
      SoundOwner(t);
    }
    hide Sound, Moved, Fits, ExtIndex;
    var isOwner := t.Siblings(logical)[k].ptype.IsExtended();
    if Sound(Moved(t, logical, k, g)) {
      MovedOnlyWhereFits(t, logical, k, g);
      if isOwner {
        MovedOwner(t, k, g);
      }
    } else if Fits(t, logical, k, g) && (isOwner ==> forall i :: 0 <= i < |t.logs| ==> t.logs[i].geom.Inside(g)) {
      MovedSound(t, logical, k, g);
    }
  }

  /** Whatever the label answers, a move keeps the table sound. */
  ghost predicate MoveIsSafe(t: Table, logical: bool, k: nat, g: Geom, c: Constraint, a: Answers)
    requires k < |t.Siblings(logical)|
  {
    var ptype := t.Siblings(logical)[k].ptype;
    forall b: Answers :: SameHandler(a, b) && MoveVerdict(t, ptype, k, g, Some(c), false, b).Placed? ==>
      Sound(Moved(t, logical, k, MoveVerdict(t, ptype, k, g, Some(c), false, b).geom))
  }

  /** A move is safe, whatever the label answers, exactly when the one failing
      branch has no input: a primary partition, IGNORE at the end of the device,
      and a solution within the window that reaches beyond it. */
  lemma MoveSafeIff(t: Table, logical: bool, k: nat, g: Geom, c: Constraint, a: Answers)
    requires Sound(t) && t.length <= LLONG_MAX && (logical ==> t.Ext().Some?)
    requires k < |t.Siblings(logical)| && t.Siblings(logical)[k].ptype.logical == logical
    ensures var ptype := t.Siblings(logical)[k].ptype;
      var w := RoomWindow(t, ptype, k, g.start);
      MoveIsSafe(t, logical, k, g, c, a) <==>
        || logical || !a.ignoreOutsideDisk
        || forall h :: Choosable(t, ptype, k, w, c, false, a, h) ==> h.end < t.length
  {
    hide Sound, RoomWindow, Narrow, ExtIndex, Moved, Choosable, Settle, Choosing;
    var ptype := t.Siblings(logical)[k].ptype;
    var w := RoomWindow(t, ptype, k, g.start);
    forall h | Choosable(t, ptype, k, w, c, false, a, h)
      ensures MoveVerdict(t, ptype, k, g, Some(c), false, Choosing(a, h)) == Placed(h)
      ensures Sound(Moved(t, logical, k, h)) <==> logical || h.end < t.length
      ensures !a.ignoreOutsideDisk ==> h.end < t.length
    {
      MoveChoiceFits(t, logical, k, g, c, a, h);
    }
    forall b: Answers | SameHandler(a, b) && MoveVerdict(t, ptype, k, g, Some(c), false, b).Placed?
      ensures Choosable(t, ptype, k, w, c, false, a, MoveVerdict(t, ptype, k, g, Some(c), false, b).geom)
    {
      SettleChoice(t, ptype, k, w, c, a, b, g, false);
    }
  }

  lemma MoveChoiceFits(t: Table, logical: bool, k: nat, g: Geom, c: Constraint, a: Answers, h: Geom)
    requires Sound(t) && t.length <= LLONG_MAX && (logical ==> t.Ext().Some?)
    requires k < |t.Siblings(logical)| && t.Siblings(logical)[k].ptype.logical == logical
    requires var ptype := t.Siblings(logical)[k].ptype;
      Choosable(t, ptype, k, RoomWindow(t, ptype, k, g.start), c, false, a, h)
    ensures var ptype := t.Siblings(logical)[k].ptype;
      && MoveVerdict(t, ptype, k, g, Some(c), false, Choosing(a, h)) == Placed(h)
      && (Sound(Moved(t, logical, k, h)) <==> logical || h.end < t.length)
      && (!a.ignoreOutsideDisk ==> h.end < t.length)
  {
    var ptype := t.Siblings(logical)[k].ptype;
    var w := RoomWindow(t, ptype, k, g.start);
    assert ptype.IsExtended() ==> forall i :: 0 <= i < |t.logs| ==> t.logs[i].geom.Inside(h);
    assert !a.ignoreOutsideDisk ==> h.end < t.length;
    OwnerOnDevice(t);
    hide Sound, RoomWindow, Narrow, ExtIndex, Moved, Settle, FreeOfOthers, Checked;
    ChosenNarrows(t, ptype, k, w, c, a, h);
    SettleChosen(t, ptype, k, w, c, a, h, g, false);
    NarrowSolutions(w.value, c, h);
    SolutionFits(t, ptype, k, g.start, Some(c), h);
    MovedSoundIff(t, logical, k, h);
  }

  const PLAIN := PartType(false, false, false, false)

  /** A hundred sectors, the first ten taken. */
  const ONE_TAKEN := Table(100, [Slot(PLAIN, Geom(0, 9))], [])

  function Willing(aligned: Geom, ignoreOverlap: bool): Answers {
    Answers(true, Some(aligned), true, ignoreOverlap, false, false, false)
  }

  /** While the device needs clobbering, alignment is skipped and with it the
      window: 5..20 is linked beside 0..9. */
  lemma ClobberOverlaps()
    ensures Sound(ONE_TAKEN)
    ensures AddVerdict(ONE_TAKEN, PLAIN, Geom(5, 20), Some(ConstraintAny(100)), true, Willing(Geom(5, 20), false))
         == Placed(Geom(5, 20))
    ensures !Sound(Added(ONE_TAKEN, Slot(PLAIN, Geom(5, 20))))
  {
    var t := ONE_TAKEN;
    assert ExtIndex(t.prims) == -1;
    WindowStep(t.prims, -1, 0, 5, 0, LLONG_MAX - 1);
    WindowStop(t.prims, -1, 1, 5, 10, LLONG_MAX - 1);
    AddSoundIff(t, PLAIN, Geom(5, 20), Some(ConstraintAny(100)), true, Willing(Geom(5, 20), false));
    assert t.prims[0].geom.Has(5);
  }

  /** Ignoring the overlap exception has the same effect. */
  lemma IgnoreOverlaps()
    ensures var exact := Some(ConstraintExact(Geom(5, 8), 100));
      && AddVerdict(ONE_TAKEN, PLAIN, Geom(5, 8), exact, false, Willing(Geom(5, 8), true)) == Placed(Geom(5, 8))
      && AddVerdict(ONE_TAKEN, PLAIN, Geom(5, 8), exact, false, Willing(Geom(5, 8), false)) == Overlap
      && !Sound(Added(ONE_TAKEN, Slot(PLAIN, Geom(5, 8))))
  {
    var t, c := ONE_TAKEN, Some(ConstraintExact(Geom(5, 8), 100));
    assert ExtIndex(t.prims) == -1;
    WindowStep(t.prims, -1, 0, 5, 0, LLONG_MAX - 1);
    WindowStop(t.prims, -1, 1, 5, 10, LLONG_MAX - 1);
    AddSoundIff(t, PLAIN, Geom(5, 8), c, false, Willing(Geom(5, 8), true));
    assert t.prims[0].geom.Has(5);
  }

  /** Ignoring the end of the device links 95..120 on one of a hundred sectors. */
  lemma IgnoreEndOfDevice()
    ensures var beyond := Some(ConstraintExact(Geom(95, 120), 100));
      && AddVerdict(ONE_TAKEN, PLAIN, Geom(95, 120), beyond, false,
                       Willing(Geom(95, 120), false).(ignoreOutsideDisk := true))
         == Placed(Geom(95, 120))
      && AddVerdict(ONE_TAKEN, PLAIN, Geom(95, 120), beyond, false, Willing(Geom(95, 120), false))
          == Refused(Geom(95, 120))
      && !Sound(Added(ONE_TAKEN, Slot(PLAIN, Geom(95, 120))))
  {
    var t, c := ONE_TAKEN, Some(ConstraintExact(Geom(95, 120), 100));
    assert ExtIndex(t.prims) == -1;
    WindowStep(t.prims, -1, 0, 95, 0, LLONG_MAX - 1);
    WindowStop(t.prims, -1, 1, 95, 10, LLONG_MAX - 1);
    AddSoundIff(t, PLAIN, Geom(95, 120), c, false, Willing(Geom(95, 120), false).(ignoreOutsideDisk := true));
  }

  /** A move may go there as well: 0..9 to exactly 95..120. */
  lemma MovedBeyondDevice()
    ensures var beyond := Some(ConstraintExact(Geom(95, 120), 100));
      && MoveVerdict(ONE_TAKEN, PLAIN, 0, Geom(95, 120), beyond, false,
                     Willing(Geom(95, 120), false).(ignoreOutsideDisk := true))
         == Placed(Geom(95, 120))
      && MoveVerdict(ONE_TAKEN, PLAIN, 0, Geom(95, 120), beyond, false, Willing(Geom(95, 120), false))
         == Refused(Geom(95, 120))
      && !Sound(Moved(ONE_TAKEN, false, 0, Geom(95, 120)))
  {
    var t := ONE_TAKEN;
    assert ExtIndex(t.prims) == -1;
    WindowStep(t.prims, 0, 0, 95, 0, LLONG_MAX - 1);
    WindowStop(t.prims, 0, 1, 95, 0, LLONG_MAX - 1);
    MovedSoundIff(t, false, 0, Geom(95, 120));
  }

  /** A partition that is not added need not be "left unmodified": 15..25, which
      the label aligns to 20..29 and then does not accept, stays at 20..29. */
  lemma RefusedModified()
    ensures var v := AddVerdict(ONE_TAKEN, PLAIN, Geom(15, 25), Some(ConstraintAny(100)), false,
                                Willing(Geom(20, 29), false).(accepted := false));
      v == Refused(Geom(20, 29)) && GeomAt(v, Geom(15, 25), Geom(15, 25)) == Geom(20, 29)
  {
    var t := ONE_TAKEN;
    assert ExtIndex(t.prims) == -1;
    WindowStep(t.prims, -1, 0, 15, 0, LLONG_MAX - 1);
    WindowStop(t.prims, -1, 1, 15, 10, LLONG_MAX - 1);
  }

  // ----- Maximizing -----

  /** What ped_disk_maximize_partition asks for partition k, on the table alone. */
  function GrowVerdict(t: Table, logical: bool, k: nat, c: Option<Constraint>, a: Answers): Verdict
    requires k < |t.Siblings(logical)|
  {
    MoveVerdict(t, t.Siblings(logical)[k].ptype, k, MaxRequest(t, logical, k), c, false, a)
  }

  /** The documented promise: whatever the label answers, a maximized partition
      contains what it was. */
  ghost predicate MaximizeGrows(t: Table, logical: bool, k: nat, c: Constraint, a: Answers)
    requires k < |t.Siblings(logical)|
  {
    forall b: Answers :: SameHandler(a, b) && GrowVerdict(t, logical, k, Some(c), b).Placed? ==>
      t.Siblings(logical)[k].geom.Inside(GrowVerdict(t, logical, k, Some(c), b).geom)
  }

  /** It holds exactly when the caller's constraint has no other solutions: every
      one inside the window that passes the checks contains the partition. */
  lemma MaximizeGrowsIff(t: Table, logical: bool, k: nat, c: Constraint, a: Answers)
    requires k < |t.Siblings(logical)|
    ensures var x := t.Siblings(logical)[k];
      var w := RoomWindow(t, x.ptype, k, MaxRequest(t, logical, k).start);
      MaximizeGrows(t, logical, k, c, a) <==>
        forall h :: Choosable(t, x.ptype, k, w, c, false, a, h) ==> x.geom.Inside(h)
  {
    hide RoomWindow, Narrow, MaxRequest, Choosable, Settle, Choosing;
    var x, g := t.Siblings(logical)[k], MaxRequest(t, logical, k);
    var w := RoomWindow(t, x.ptype, k, g.start);
    forall h | Choosable(t, x.ptype, k, w, c, false, a, h)
      ensures GrowVerdict(t, logical, k, Some(c), Choosing(a, h)) == Placed(h)
    {
      ChosenNarrows(t, x.ptype, k, w, c, a, h);
      SettleChosen(t, x.ptype, k, w, c, a, h, g, false);
    }
    forall b: Answers | SameHandler(a, b) && GrowVerdict(t, logical, k, Some(c), b).Placed?
      ensures Choosable(t, x.ptype, k, w, c, false, a, GrowVerdict(t, logical, k, Some(c), b).geom)
    {
      SettleChoice(t, x.ptype, k, w, c, a, b, g, false);
    }
  }

  lemma ChosenNarrows(t: Table, ptype: PartType, self: int, w: Option<Geom>, c: Constraint, a: Answers, h: Geom)
    requires Choosable(t, ptype, self, w, c, false, a, h)
    ensures Narrow(w, Some(c)).Some?
  {
  }

  /** In particular when the constraint lets a partition start no later and end
      no earlier than it did. */
  lemma MaximizeGrowsFrom(t: Table, logical: bool, k: nat, c: Constraint, a: Answers)
    requires k < |t.Siblings(logical)|
    requires c.startRange.end <= t.Siblings(logical)[k].geom.start
        && t.Siblings(logical)[k].geom.end <= c.endRange.start
    ensures MaximizeGrows(t, logical, k, c, a)
  {
    hide RoomWindow, MaxRequest, MaximizeGrows;
    MaximizeGrowsIff(t, logical, k, c, a);
  }

  /** A caller that asks for exactly 3..4 makes maximizing shrink 0..9. */
  lemma MaximizeShrinks()
    ensures var exact := Some(ConstraintExact(Geom(3, 4), 100));
      && MaxRequest(ONE_TAKEN, false, 0) == Geom(0, 99)
      && GrowVerdict(ONE_TAKEN, false, 0, exact, Willing(Geom(3, 4), false)) == Placed(Geom(3, 4))
      && !Geom(0, 9).Inside(Geom(3, 4))
  {
    var t := ONE_TAKEN;
    assert ExtIndex(t.prims) == -1;
    WindowStep(t.prims, 0, 0, 0, 0, LLONG_MAX - 1);
    WindowStop(t.prims, 0, 1, 0, 0, LLONG_MAX - 1);
  }

  /** After growing to 0..99, a label that answers 0..8 does not let 0..9 come
      back: the final assertion of get_max_partition_geometry fails. */
  lemma NotRestored()
    ensures var t, a := Table(100, [Slot(PLAIN, Geom(0, 99))], []), Willing(Geom(0, 8), false);
      !MoveVerdict(t, PLAIN, 0, Geom(0, 9), Some(ConstraintExact(Geom(0, 9), 100)), false, a).Placed?
  {
    hide Window;
    var w := RoomWindow(Table(100, [Slot(PLAIN, Geom(0, 99))], []), PLAIN, 0, 0);
    var c := ConstraintExact(Geom(0, 9), 100);
    if w.Some? {
      NarrowSolutions(w.value, c, Geom(0, 8));
    }
  }

  // ----- Placeholders after a failing set_partition_geom -----

  /** The placeholder in front of a slot that starts at start, and behind one
      that ends at end. */
  function GapBefore(last: int, start: int, logical: bool): seq<Slot> {
    if start > last + 1 then [FreeSlot(logical, last + 1, start - 1)] else []
  }

  /** The sector that is next to be covered behind the first k slots. */
  function LastOf(s: seq<Slot>, k: nat, last: int): int
    requires k <= |s|
  {
    if k == 0 then last else s[k - 1].geom.end
  }

  /** The first sector behind slot k that another slot takes. */
  function NextOf(s: seq<Slot>, k: nat, hi: int): int
    requires k < |s|
  {
    if k + 1 < |s| then s[k + 1].geom.start else hi + 1
  }

  /** Fill, up to the slot at index k. */
  function FillFront(s: seq<Slot>, k: nat, last: int, logical: bool): (r: seq<Slot>)
    requires k <= |s|
  {
    if k == 0 then []
    else
      GapBefore(last, s[0].geom.start, logical) + [s[0]] + FillFront(s[1..], k - 1, s[0].geom.end, logical)
  }

  /** Fill, from the slot after index k on, without the placeholder in front of it. */
  function FillBack(s: seq<Slot>, hi: int, logical: bool): seq<Slot> {
    if s == [] then [] else [s[0]] + Fill(s[1..], s[0].geom.end, hi, logical)
  }

  lemma FillHead(s: seq<Slot>, last: int, hi: int, logical: bool)
    ensures Fill(s, last, hi, logical)
         == GapBefore(last, if s == [] then hi + 1 else s[0].geom.start, logical) + FillBack(s, hi, logical)
  {
    if s != [] {
      hide FillBack, GapBefore;
      FillBackIs(s, hi, logical);
      FillCons(s, last, hi, logical);
      var gap, more := GapBefore(last, s[0].geom.start, logical), Fill(s[1..], s[0].geom.end, hi, logical);
      assert gap + [s[0]] + more == gap + ([s[0]] + more);
    }
  }

  lemma FillCons(s: seq<Slot>, last: int, hi: int, logical: bool)
    requires s != []
    ensures Fill(s, last, hi, logical)
         == GapBefore(last, s[0].geom.start, logical) + [s[0]] + Fill(s[1..], s[0].geom.end, hi, logical)
  {
  }

  /** Slot k with the placeholders around it, and all that follows. */
  function FillMiddle(s: seq<Slot>, k: nat, last: int, hi: int, logical: bool): seq<Slot>
    requires k < |s|
  {
    GapBefore(LastOf(s, k, last), s[k].geom.start, logical) + [s[k]]
    + GapBefore(s[k].geom.end, NextOf(s, k, hi), logical) + FillBack(s[k + 1..], hi, logical)
  }

  /** Where slot k stands in a filled list. */
  lemma {:induction false} FillAround(s: seq<Slot>, k: nat, last: int, hi: int, logical: bool)
    requires k < |s|
    ensures Fill(s, last, hi, logical) == FillFront(s, k, last, logical) + FillMiddle(s, k, last, hi, logical)
  {
    hide Fill, FillBack, GapBefore;
    var x, rest := s[0], s[1..];
    var gap := GapBefore(last, x.geom.start, logical);
    FillHead(s, last, hi, logical);
    FillBackIs(s, hi, logical);
    if k == 0 {
      FillHead(rest, x.geom.end, hi, logical);
      assert Fill(s, last, hi, logical) == gap + [x] + Fill(rest, x.geom.end, hi, logical);
    } else {
      FillAround(rest, k - 1, x.geom.end, hi, logical);
      assert FillMiddle(rest, k - 1, x.geom.end, hi, logical) == FillMiddle(s, k, last, hi, logical) by {
        assert rest[k..] == s[k + 1..] && rest[k - 1] == s[k];
      }
      hide FillMiddle;
      var front, middle := FillFront(rest, k - 1, x.geom.end, logical), FillMiddle(s, k, last, hi, logical);
      assert gap + [x] + (front + middle) == (gap + [x] + front) + middle;
    }
  }

  lemma FillBackIs(s: seq<Slot>, hi: int, logical: bool)
    requires s != []
    ensures FillBack(s, hi, logical) == [s[0]] + Fill(s[1..], s[0].geom.end, hi, logical)
  {
  }

  lemma {:induction false} FrontSame(s: seq<Slot>, r: seq<Slot>, k: nat, last: int, logical: bool)
    requires k <= |s| && k <= |r| && s[..k] == r[..k]
    ensures FillFront(s, k, last, logical) == FillFront(r, k, last, logical)
  {
    if k > 0 {
      assert s[0] == s[..k][0] && r[0] == r[..k][0];
      assert s[1..][..k - 1] == s[..k][1..] && r[1..][..k - 1] == r[..k][1..];
      FrontSame(s[1..], r[1..], k - 1, s[0].geom.end, logical);
    }
  }

  lemma {:induction false} FrontUsed(s: seq<Slot>, k: nat, last: int, logical: bool)
    requires k <= |s| && forall x :: x in s ==> IsUsed(x)
    ensures Filter(IsUsed, FillFront(s, k, last, logical)) == s[..k]
  {
    hide Filter, FillFront, GapBefore;
    if k == 0 {
      FrontNone(s, last, logical);
      FilterNone(IsUsed, []);
    } else {
      var u, rest := s[0], s[1..];
      FrontUsed(rest, k - 1, u.geom.end, logical);
      FrontStep(s, k, last, logical);
      OneGap(last, u, FillFront(rest, k - 1, u.geom.end, logical), logical);
    }
  }

  lemma FrontNone(s: seq<Slot>, last: int, logical: bool)
    ensures FillFront(s, 0, last, logical) == []
  {
  }

  lemma FrontStep(s: seq<Slot>, k: nat, last: int, logical: bool)
    requires 0 < k <= |s|
    ensures FillFront(s, k, last, logical)
         == GapBefore(last, s[0].geom.start, logical) + [s[0]] + FillFront(s[1..], k - 1, s[0].geom.end, logical)
    ensures s[..k] == [s[0]] + s[1..][..k - 1]
  {
  }

  lemma OneGap(last: int, u: Slot, rest: seq<Slot>, logical: bool)
    requires IsUsed(u)
    ensures Filter(IsUsed, GapBefore(last, u.geom.start, logical) + [u] + rest) == [u] + Filter(IsUsed, rest)
  {
    var gap := GapBefore(last, u.geom.start, logical);
    FilterNone(IsUsed, gap);
    hide Filter;
    FilterConcat(IsUsed, gap + [u], rest);
    FilterSnoc(IsUsed, gap, u);
  }

  /** Where slot k is found in the filled list. */
  function FillPos(s: seq<Slot>, k: nat, last: int, logical: bool): nat
    requires k < |s|
  {
    |FillFront(s, k, last, logical)| + |GapBefore(LastOf(s, k, last), s[k].geom.start, logical)|
  }

  lemma FillAt(s: seq<Slot>, k: nat, last: int, hi: int, logical: bool)
    requires k < |s|
    ensures var p, f := FillPos(s, k, last, logical), Fill(s, last, hi, logical);
      && p < |f| && f[p] == s[k]
      && f[..p] == FillFront(s, k, last, logical) + GapBefore(LastOf(s, k, last), s[k].geom.start, logical)
      && f[p + 1..] == GapBefore(s[k].geom.end, NextOf(s, k, hi), logical) + FillBack(s[k + 1..], hi, logical)
  {
    hide Fill, FillFront, FillBack, GapBefore;
    FillAround(s, k, last, hi, logical);
  }

  /** A list whose placeholders were made while slot k lay at g. */
  function Stale(s: seq<Slot>, k: nat, g: Geom, last: int, hi: int, logical: bool): seq<Slot>
    requires k < |s|
  {
    var r := s[k := s[k].(geom := g)];
    FillAt(r, k, last, hi, logical);
    Fill(r, last, hi, logical)[FillPos(r, k, last, logical) := s[k]]
  }

  function Clip(g: Geom, lo: int, hi: int): Geom {
    Geom(if g.start < lo then lo else g.start, if g.end > hi then hi else g.end)
  }

  /** As far as the free sectors between its neighbours go, g is where slot k is. */
  predicate ClipsAlike(s: seq<Slot>, k: nat, g: Geom, last: int, hi: int)
    requires k < |s|
  {
    var lo, end := LastOf(s, k, last) + 1, NextOf(s, k, hi) - 1;
    Clip(g, lo, end) == Clip(s[k].geom, lo, end)
  }

  lemma GapsAlike(s: seq<Slot>, k: nat, g: Geom, last: int, hi: int, logical: bool)
    requires k < |s|
    ensures ClipsAlike(s, k, g, last, hi) <==>
      && GapBefore(LastOf(s, k, last), g.start, logical) == GapBefore(LastOf(s, k, last), s[k].geom.start, logical)
      && GapBefore(g.end, NextOf(s, k, hi), logical) == GapBefore(s[k].geom.end, NextOf(s, k, hi), logical)
  {
  }

  /** A used slot tells the placeholders in front of it from those behind. */
  lemma SplitAtUsed(f: seq<Slot>, x: seq<Slot>, u: Slot, y: seq<Slot>, x': seq<Slot>, y': seq<Slot>)
    requires IsUsed(u) && |x| <= 1 && |x'| <= 1
    requires (forall i :: 0 <= i < |x| ==> !IsUsed(x[i])) && (forall i :: 0 <= i < |x'| ==> !IsUsed(x'[i]))
    requires f + x + [u] + y == f + x' + [u] + y'
    ensures x == x' && y == y'
  {
    var a, b := f + x + [u] + y, f + x' + [u] + y';
    assert a[|f|] == if |x| == 1 then x[0] else u;
    assert b[|f|] == if |x'| == 1 then x'[0] else u;
    assert y == a[|f| + |x| + 1..] && y' == b[|f| + |x'| + 1..];
  }

  lemma SameBack(y: seq<Slot>, y': seq<Slot>, b: seq<Slot>)
    requires y + b == y' + b
    ensures y == y'
  {
    assert |y| == |y'|;
    assert forall i :: 0 <= i < |y| ==> y[i] == (y + b)[i] && y'[i] == (y' + b)[i];
  }

  /** Such a list is filled for where slot k really lies exactly when both
      geometries clip alike. */
  lemma StaleFilled(s: seq<Slot>, k: nat, g: Geom, last: int, hi: int, logical: bool)
    requires k < |s| && IsUsed(s[k])
    ensures Stale(s, k, g, last, hi, logical) == Fill(s, last, hi, logical) <==> ClipsAlike(s, k, g, last, hi)
  {
    hide Fill, FillFront, FillBack, ClipsAlike, Stale, GapBefore;
    GapsShort(LastOf(s, k, last), g.start, logical);
    GapsShort(g.end, NextOf(s, k, hi), logical);
    GapsShort(LastOf(s, k, last), s[k].geom.start, logical);
    GapsShort(s[k].geom.end, NextOf(s, k, hi), logical);
    var front, back := FillFront(s, k, last, logical), FillBack(s[k + 1..], hi, logical);
    var x, y := GapBefore(LastOf(s, k, last), g.start, logical), GapBefore(g.end, NextOf(s, k, hi), logical);
    var x', y' := GapBefore(LastOf(s, k, last), s[k].geom.start, logical), GapBefore(s[k].geom.end, NextOf(s, k, hi),
        logical);
    FillAround(s, k, last, hi, logical);
    GapsAlike(s, k, g, last, hi, logical);
    StaleParts(s, k, g, last, hi, logical);
    var now, then_ := Stale(s, k, g, last, hi, logical), Fill(s, last, hi, logical);
    assert then_ == front + x' + [s[k]] + (y' + back);
    if now == then_ {
      SplitAtUsed(front, x, s[k], y + back, x', y' + back);
      SameBack(y, y', back);
    }
  }

  lemma GapsShort(last: int, start: int, logical: bool)
    ensures |GapBefore(last, start, logical)| <= 1
    ensures forall i :: 0 <= i < |GapBefore(last, start, logical)| ==> !IsUsed(GapBefore(last, start, logical)[i])
  {
  }

  lemma StaleParts(s: seq<Slot>, k: nat, g: Geom, last: int, hi: int, logical: bool)
    requires k < |s|
    ensures Stale(s, k, g, last, hi, logical)
         == FillFront(s, k, last, logical) + GapBefore(LastOf(s, k, last), g.start, logical) + [s[k]]
            + (GapBefore(g.end, NextOf(s, k, hi), logical) + FillBack(s[k + 1..], hi, logical))
  {
    hide Fill, FillFront, FillBack, GapBefore;
    var r := s[k := s[k].(geom := g)];
    FrontSame(s, r, k, last, logical);
    assert r[k + 1..] == s[k + 1..];
    FillAt(r, k, last, hi, logical);
    var f, p := Fill(r, last, hi, logical), FillPos(r, k, last, logical);
    assert f[p := s[k]] == f[..p] + [s[k]] + f[p + 1..];
  }

  // ----- The same for a whole table -----

  /** As far as the free sectors around the logicals go, an extended partition
      at g is like one at e. */
  predicate RefillsAlike(logs: seq<Slot>, e: Geom, g: Geom) {
    if logs == [] then g == e || (g.start >= g.end && e.start >= e.end)
    else
      var first, last := logs[0].geom.start, logs[|logs| - 1].geom.end;
      && (if g.start < first then g.start + 1 else first) == (if e.start < first then e.start + 1 else first)
      && (if g.end > last then g.end else last) == (if e.end > last then e.end else last)
  }

  lemma {:induction false} FillEnds(s: seq<Slot>, last: int, hi: int, last': int, hi': int)
    requires s != [] && forall x :: x in s ==> IsUsed(x)
    ensures Fill(s, last, hi, true) == Fill(s, last', hi', true) <==>
      && GapBefore(last, s[0].geom.start, true) == GapBefore(last', s[0].geom.start, true)
      && GapBefore(s[|s| - 1].geom.end, hi + 1, true) == GapBefore(s[|s| - 1].geom.end, hi' + 1, true)
  {
    hide Fill;
    var u, rest := s[0], s[1..];
    FillHead(s, last, hi, true);
    FillHead(s, last', hi', true);
    FillBackIs(s, hi, true);
    FillBackIs(s, hi', true);
    var x, x' := GapBefore(last, u.geom.start, true), GapBefore(last', u.geom.start, true);
    var y, y' := Fill(rest, u.geom.end, hi, true), Fill(rest, u.geom.end, hi', true);
    assert Fill(s, last, hi, true) == [] + x + [u] + y && Fill(s, last', hi', true) == [] + x' + [u] + y';
    if Fill(s, last, hi, true) == Fill(s, last', hi', true) {
      SplitAtUsed([], x, u, y, x', y');
    }
    if rest == [] {
      FillNothing(u.geom.end, hi);
      FillNothing(u.geom.end, hi');
    } else {
      FillEnds(rest, u.geom.end, hi, u.geom.end, hi');
    }
  }

  lemma FillNothing(last: int, hi: int)
    ensures Fill([], last, hi, true) == GapBefore(last, hi + 1, true)
  {
  }

  lemma RefillsAlikeIff(logs: seq<Slot>, e: Geom, g: Geom)
    requires forall x :: x in logs ==> IsUsed(x)
    ensures Fill(logs, g.start, g.end, true) == Fill(logs, e.start, e.end, true) <==> RefillsAlike(logs, e, g)
  {
    if logs == [] {
      FillNothing(g.start, g.end);
      FillNothing(e.start, e.end);
    } else {
      FillEnds(logs, g.start, g.end, e.start, e.end);
      var first, last := logs[0].geom.start, logs[|logs| - 1].geom.end;
      GapsIff(first, last, g, e);
    }
  }

  lemma GapsIff(first: int, last: int, g: Geom, e: Geom)
    ensures GapBefore(g.start, first, true) == GapBefore(e.start, first, true)
       <==> (if g.start < first then g.start + 1 else first) == (if e.start < first then e.start + 1 else first)
    ensures GapBefore(last, g.end + 1, true) == GapBefore(last, e.end + 1, true)
       <==> (if g.end > last then g.end else last) == (if e.end > last then e.end else last)
  {
  }

  /** What is taken in front of a list, and its last sector. */
  function Edges(t: Table, logical: bool): Geom {
    if logical then Room(t, true) else Geom(-1, t.length - 1)
  }

  /** Whether the placeholders computed while partition k lay at g are those of
      the table with k where it lies. */
  predicate Harmless(t: Table, logical: bool, k: nat, g: Geom)
    requires k < |t.Siblings(logical)|
  {
    var s, b := t.Siblings(logical), Edges(t, logical);
    && ClipsAlike(s, k, g, b.start, b.end)
    && (s[k].ptype.IsExtended() && !logical ==> RefillsAlike(t.logs, s[k].geom, g))
  }

  /** The table with those placeholders. */
  function StaleTable(t: Table, logical: bool, k: nat, g: Geom): Table
    requires k < |t.Siblings(logical)|
  {
    var b, f := Edges(t, logical), Filled(Regeom(t, logical, k, g));
    f.WithSiblings(logical, Stale(t.Siblings(logical), k, g, b.start, b.end, logical))
  }

  ghost predicate AllUsed(t: Table) {
    (forall x :: x in t.prims ==> IsUsed(x)) && (forall x :: x in t.logs ==> IsUsed(x))
  }

  lemma RegeomOwner(t: Table, logical: bool, k: nat, g: Geom)
    requires Sound(t) && k < |t.Siblings(logical)| && (logical ==> t.Siblings(logical)[k].ptype.logical)
    ensures Regeom(t, logical, k, g).Ext() == if !logical && t.prims[k].ptype.IsExtended() then Some(g) else t.Ext()
    ensures !logical && t.prims[k].ptype.IsExtended() ==> t.Ext() == Some(t.prims[k].geom)
    ensures logical ==> t.Ext().Some?
  {
    hide ExtIndex;
    if !logical {
      ExtIndexRegeom(t.prims, k, g);
      ExtIsOnly(t.prims, k);
    }
  }

  /** They are right exactly when g is harmless. */
  lemma StaleTableIff(t: Table, logical: bool, k: nat, g: Geom)
    requires Sound(t) && AllUsed(t) && k < |t.Siblings(logical)| && (logical ==> t.Siblings(logical)[k].ptype.logical)
    ensures StaleTable(t, logical, k, g) == Filled(t) <==> Harmless(t, logical, k, g)
  {
    hide Sound, Fill, ClipsAlike, Stale, RefillsAlike, ExtIndex;
    var s, b := t.Siblings(logical), Edges(t, logical);
    RegeomOwner(t, logical, k, g);
    StaleFilled(s, k, g, b.start, b.end, logical);
    if s[k].ptype.IsExtended() && !logical {
      RefillsAlikeIff(t.logs, s[k].geom, g);
    }
  }

  /** With the placeholders of 0..19, the rejected geometry, 0..9 is followed by
      ten sectors that belong to no node. */
  lemma RejectedHarms()
    ensures !Harmless(ONE_TAKEN, false, 0, Geom(0, 19))
    ensures StaleTable(ONE_TAKEN, false, 0, Geom(0, 19)) != Filled(ONE_TAKEN)
  {
    var t := ONE_TAKEN;
    assert ExtIndex(t.prims) == -1;
    StaleTableIff(t, false, 0, Geom(0, 19));
  }
}
