// What a placed partition does to the layout invariant.

module Soundness {
  import opened Common
  import opened Geometry
  import opened Layout
  import opened Placement

  /** The sectors a member of such a list may take. */
  function Bounds(t: Table, logical: bool): Geom {
    if logical then Room(t, true) else Geom(0, t.length - 1)
  }

  ghost predicate Fits(t: Table, logical: bool, self: int, g: Geom) {
    g.Valid() && g.Inside(Bounds(t, logical)) && FreeOfOthers(t.Siblings(logical), self, g)
  }

  lemma SoundOwner(t: Table)
    requires Sound(t) && t.Ext().Some?
    ensures t.Ext().value.start >= 0
  {
  }

  lemma ExtIndexIs(s: seq<Slot>, e: int)
    requires -1 <= e < |s|
    requires forall i :: 0 <= i < |s| ==> (s[i].ptype.IsExtended() <==> i == e)
    ensures ExtIndex(s) == e && AtMostOneExtended(s)
  {
    hide ExtIndex;
    assert e >= 0 ==> s[e].ptype.IsExtended();
  }

  lemma ExtIsOnly(s: seq<Slot>, i: nat)
    requires i < |s| && AtMostOneExtended(s)
    ensures s[i].ptype.IsExtended() <==> i == ExtIndex(s)
  {
  }

  /** Linking a slot that is not extended leaves the extended partition as it was. */
  lemma ExtWith(s: seq<Slot>, k: nat, x: Slot)
    requires k <= |s| && AtMostOneExtended(s)
    requires x.ptype.IsExtended() ==> ExtIndex(s) < 0
    ensures var e := ExtIndex(s);
      && AtMostOneExtended(With(s, k, x))
      && ExtIndex(With(s, k, x)) == if x.ptype.IsExtended() then k else if e < k then e else e + 1
  {
    hide ExtIndex, AtMostOneExtended;
    var e, r := ExtIndex(s), With(s, k, x);
    var e' := if x.ptype.IsExtended() then k else if e < k then e else e + 1;
    forall i | 0 <= i < |r|
      ensures r[i].ptype.IsExtended() <==> i == e'
    {
      if i < k {
        ExtIsOnly(s, i);
      } else if i > k {
        ExtIsOnly(s, i - 1);
        assert r[i] == s[i - 1];
      }
    }
    ExtIndexIs(r, e');
  }

  lemma ExtWithout(s: seq<Slot>, k: nat)
    requires k < |s| && AtMostOneExtended(s)
    ensures var e := ExtIndex(s);
      && AtMostOneExtended(Without(s, k))
      && ExtIndex(Without(s, k)) == if e == k then -1 else if e < k then e else e - 1
  {
    hide ExtIndex, AtMostOneExtended;
    var e, r := ExtIndex(s), Without(s, k);
    var e' := if e == k then -1 else if e < k then e else e - 1;
    forall i | 0 <= i < |r|
      ensures r[i].ptype.IsExtended() <==> i == e'
    {
      var j := if i < k then i else i + 1;
      ExtIsOnly(s, j);
      assert r[i] == s[j];
    }
    ExtIndexIs(r, e');
  }

  /** An ordered list takes a slot exactly where it is free. */
  lemma InsertOrdered(s: seq<Slot>, x: Slot, lo: int, hi: int)
    requires Ordered(s, lo, hi)
    ensures Ordered(Insert(s, x), lo, hi)
       <==> lo <= x.geom.start <= x.geom.end <= hi && FreeOfOthers(s, -1, x.geom)
  {
    hide InsertPos;
    if lo <= x.geom.start <= x.geom.end <= hi && FreeOfOthers(s, -1, x.geom) {
      InsertKeepsOrder(s, x, lo, hi);
    }
    var r := Insert(s, x);
    var k := InsertPos(s, x.geom.end);
    assert forall i :: 0 <= i < |s| ==> s[i] == r[if i < k then i else i + 1];
  }

  lemma OrderedEmpty(lo: int, hi: int)
    ensures Ordered([], lo, hi)
  {
  }

  lemma OrderedStarts(s: seq<Slot>, lo: int, hi: int)
    requires Ordered(s, lo, hi)
    ensures forall i :: 0 <= i < |s| ==> lo <= s[i].geom.start <= s[i].geom.end <= hi
  {
  }

  /** A slot may be linked exactly where the table has room for it. */
  lemma AddedSound(t: Table, x: Slot)
    requires Sound(t) && (x.ptype.logical ==> t.Ext().Some? && t.Ext().value.start >= 0)
    requires x.ptype.IsExtended() ==> t.Ext().None?
    ensures Sound(Added(t, x)) <==> Fits(t, x.ptype.logical, -1, x.geom)
  {
    hide ExtIndex, Ordered, With, AtMostOneExtended, FreeOfOthers;
    var b := Bounds(t, x.ptype.logical);
    InsertOrdered(t.Siblings(x.ptype.logical), x, b.start, b.end);
    if !x.ptype.logical {
      ExtWith(t.prims, InsertPos(t.prims, x.geom.end), x);
      OrderedEmpty(x.geom.start, x.geom.end);
      ExtSame(t.prims, InsertPos(t.prims, x.geom.end), x);
    }
  }

  lemma ExtSame(s: seq<Slot>, k: nat, x: Slot)
    requires k <= |s|
    ensures With(s, k, x)[k] == x
    ensures forall i :: 0 <= i < |s| ==> With(s, k, x)[if i < k then i else i + 1] == s[i]
  {
  }

  lemma WithoutSame(s: seq<Slot>, k: nat)
    requires k < |s|
    ensures forall i :: 0 <= i < |s| && i != k ==> Without(s, k)[if i < k then i else i - 1] == s[i]
  {
  }

  /** Unlinking keeps the table sound, unless it orphans logicals. */
  lemma RemovedSound(t: Table, logical: bool, k: nat)
    requires Sound(t) && k < |t.Siblings(logical)|
    requires t.Siblings(logical)[k].ptype.IsExtended() && !logical ==> t.logs == []
    ensures Sound(Removed(t, logical, k))
    ensures FreeOfOthers(t.Siblings(logical), k, t.Siblings(logical)[k].geom)
    ensures logical || k != ExtIndex(t.prims) ==> Removed(t, logical, k).Ext() == t.Ext()
    ensures !logical && k == ExtIndex(t.prims) ==> Removed(t, logical, k).Ext() == None
  {
    hide ExtIndex, Ordered, Without, AtMostOneExtended, FreeOfOthers;
    var b := Bounds(t, logical);
    assert Ordered(t.Siblings(logical), b.start, b.end);
    MemberIn(t.Siblings(logical), k, b.start, b.end);
    WithoutKeepsOrder(t.Siblings(logical), k, b.start, b.end);
    if !logical {
      ExtIsOnly(t.prims, k);
      ExtWithout(t.prims, k);
      WithoutSame(t.prims, k);
    }
  }

  /** Whatever solves a constraint narrowed by the overlap window lies in free
      sectors within the room for such a partition. */
  lemma SolutionFits(t: Table, ptype: PartType, self: int, from: int, c: Option<Constraint>, g: Geom)
    requires Sound(t) && t.length <= LLONG_MAX && (ptype.logical ==> t.Ext().Some?)
    requires Narrow(RoomWindow(t, ptype, self, from), c).Some?
    requires Narrow(RoomWindow(t, ptype, self, from), c).value.IsSolution(g) && g.Valid()
    ensures FreeOfOthers(t.Siblings(ptype.logical), self, g)
    ensures g.Inside(Room(t, ptype.logical))
  {
    hide ExtIndex, Window;
    var room := Room(t, ptype.logical);
    var s := t.Siblings(ptype.logical);
    assert Ordered(s, room.start, room.end);
    WindowMeaning(s, self, from, room.start, room.end);
    NarrowSolutions(RoomWindow(t, ptype, self, from).value, c.value, g);
  }

  /** ped_disk_add_partition keeps the layout invariant, for an active partition
      and when alignment is not skipped: as long as its success does not owe to
      an IGNORE at the overlap or at the end of the device. */
  lemma AddKeepsSound(t: Table, ptype: PartType, g: Geom, c: Option<Constraint>, a: Answers)
    requires Sound(t) && t.length <= LLONG_MAX
    requires ptype.IsActive() && (ptype.logical ==> t.Ext().Some? && t.Ext().value.start >= 0)
    requires AddVerdict(t, ptype, g, c, false, a).Placed?
    requires AddVerdict(t, ptype, g, c, false, a) == AddVerdict(t, ptype, g, c, false, a.Strict())
    ensures Sound(Added(t, Slot(ptype, AddVerdict(t, ptype, g, c, false, a).geom)))
  {
    var h := AddVerdict(t, ptype, g, c, false, a).geom;
    assert Checked(t, ptype, -1, h, a.Strict());
    hide ExtIndex, Sound, RoomWindow, Narrow, FreeOfOthers, Added, Checked;
    SolutionFits(t, ptype, -1, g.start, c, h);
    CheckedFits(t, ptype, -1, h, a.Strict());
    AddedSound(t, Slot(ptype, h));
  }

  /** It does not when the constraint meets the window, or that is not ignored,
      and the constraint ends on the device, or its end is not ignored. */
  lemma AddIsStrict(t: Table, ptype: PartType, g: Geom, c: Option<Constraint>, a: Answers)
    requires Sound(t) && t.length <= LLONG_MAX && (ptype.logical ==> t.Ext().Some?)
    requires ptype.IsActive() && (a.ignoreOverlap ==> c.None? || Narrow(RoomWindow(t, ptype, -1, g.start), c).Some?)
    requires a.ignoreOutsideDisk ==> ptype.logical || c.None? || c.value.endRange.end < t.length
    ensures AddVerdict(t, ptype, g, c, false, a) == AddVerdict(t, ptype, g, c, false, a.Strict())
  {
    hide ExtIndex, Sound, RoomWindow, Narrow;
    SettleIsStrict(t, ptype, -1, g, g.start, c, a);
  }

  lemma SettleIsStrict(t: Table, ptype: PartType, self: int, g: Geom, from: int, c: Option<Constraint>, a: Answers)
    requires Sound(t) && t.length <= LLONG_MAX && (ptype.logical ==> t.Ext().Some?)
    requires a.ignoreOutsideDisk ==> ptype.logical || c.None? || c.value.endRange.end < t.length
    ensures var both := Narrow(RoomWindow(t, ptype, self, from), c);
      Settle(t, ptype, self, g, both, false, a) == Settle(t, ptype, self, g, both, false, a.Strict())
  {
    var w := RoomWindow(t, ptype, self, from);
    var both := Narrow(w, c);
    hide ExtIndex, Sound, RoomWindow, Narrow, FreeOfOthers;
    if both.Some? && a.aligned.Some? && a.aligned.value.Valid() && both.value.IsSolution(a.aligned.value) {
      var h := a.aligned.value;
      SolutionFits(t, ptype, self, from, c, h);
      SolvesBoth(w, c, h);
      OwnerOnDevice(t);
    }
  }

  lemma SolvesBoth(w: Option<Geom>, c: Option<Constraint>, h: Geom)
    requires Narrow(w, c).Some? && Narrow(w, c).value.IsSolution(h) && h.Valid()
    ensures w.Some? && c.Some? && c.value.IsSolution(h)
  {
    NarrowSolutions(w.value, c.value, h);
  }

  lemma OwnerOnDevice(t: Table)
    requires Sound(t)
    ensures t.Ext().Some? ==> 0 <= t.Ext().value.start && t.Ext().value.end < t.length
  {
  }

  lemma FreeOfRest(s: seq<Slot>, k: nat, g: Geom)
    requires k < |s|
    ensures FreeOfOthers(s, k, g) <==> FreeOfOthers(Without(s, k), -1, g)
  {
    var o := Without(s, k);
    if FreeOfOthers(s, k, g) {
      forall i | 0 <= i < |o|
        ensures o[i].geom.Disjoint(g)
      {
        assert o[i] == s[if i < k then i else i + 1];
      }
    }
    if FreeOfOthers(o, -1, g) {
      forall i | 0 <= i < |s| && i != k
        ensures s[i].geom.Disjoint(g)
      {
        assert s[i] == o[if i < k then i else i - 1];
      }
    }
  }

  lemma OrderedWithin(s: seq<Slot>, lo: int, hi: int, g: Geom)
    requires Ordered(s, lo, hi) && forall i :: 0 <= i < |s| ==> s[i].geom.Inside(g)
    ensures Ordered(s, g.start, g.end)
  {
  }

  /** A member may be relinked wherever the others leave room; an extended one
      only around its logicals. */
  lemma MovedSound(t: Table, logical: bool, k: nat, g: Geom)
    requires Sound(t) && k < |t.Siblings(logical)| && Fits(t, logical, k, g)
    requires t.Siblings(logical)[k].ptype.logical == logical
    requires logical ==> t.Ext().Some? && t.Ext().value.start >= 0
    requires t.Siblings(logical)[k].ptype.IsExtended() ==> forall i :: 0 <= i < |t.logs| ==> t.logs[i].geom.Inside(g)
    ensures Sound(Moved(t, logical, k, g))
  {
    hide ExtIndex, Ordered, FreeOfOthers, AtMostOneExtended;
    var x := t.Siblings(logical)[k].(geom := g);
    FreeOfRest(t.Siblings(logical), k, g);
    if x.ptype.IsExtended() {
      ExtIsOnly(t.prims, k);
      var t' := t.(logs := []);
      var e := t.Ext().value;
      OrderedEmpty(e.start, e.end);
      OrderedWithin(t.logs, e.start, e.end, g);
      assert t'.Ext() == t.Ext();
      RemovedSound(t', false, k);
      AddedSound(Removed(t', false, k), x);
      ExtWithout(t.prims, k);
      ExtWith(Without(t.prims, k), InsertPos(Without(t.prims, k), g.end), x);
      assert Moved(t, logical, k, g) == Moved(t', logical, k, g).(logs := t.logs);
    } else {
      RemovedSound(t, logical, k);
      if !logical {
        ExtIsOnly(t.prims, k);
      }
      AddedSound(Removed(t, logical, k), x);
    }
  }

  lemma CheckedFits(t: Table, ptype: PartType, self: int, g: Geom, a: Answers)
    requires Checked(t, ptype, self, g, a) && !a.ignoreOutsideDisk
    requires g.Inside(Room(t, ptype.logical)) && (ptype.logical ==> t.Ext().Some?)
    ensures g.Inside(Bounds(t, ptype.logical))
    ensures ptype.IsExtended() ==> forall i :: 0 <= i < |t.logs| ==> t.logs[i].geom.Inside(g)
  {
  }

  /** ped_disk_set_partition_geom keeps the layout invariant, as long as its
      success does not owe to an IGNORE at the end of the device. */
  lemma MoveKeepsSound(t: Table, self: nat, logical: bool, g: Geom, c: Option<Constraint>, a: Answers)
    requires Sound(t) && t.length <= LLONG_MAX
    requires self < |t.Siblings(logical)| && t.Siblings(logical)[self].ptype.logical == logical
    requires logical ==> t.Ext().Some? && t.Ext().value.start >= 0
    requires var ptype := t.Siblings(logical)[self].ptype;
      && MoveVerdict(t, ptype, self, g, c, false, a).Placed?
      && MoveVerdict(t, ptype, self, g, c, false, a) == MoveVerdict(t, ptype, self, g, c, false, a.Strict())
    ensures Sound(Moved(t, logical, self, MoveVerdict(t, t.Siblings(logical)[self].ptype, self, g, c, false, a).geom))
  {
    var ptype := t.Siblings(logical)[self].ptype;
    var h := MoveVerdict(t, ptype, self, g, c, false, a).geom;
    assert Checked(t, ptype, self, h, a.Strict());
    hide ExtIndex, Sound, RoomWindow, Narrow, FreeOfOthers, Moved, Checked;
    SolutionFits(t, ptype, self, g.start, c, h);
    CheckedFits(t, ptype, self, h, a.Strict());
    MovedSound(t, logical, self, h);
  }

  /** It does not when the constraint ends on the device, or its end is not
      ignored; a logical partition never gets there. */
  lemma MoveIsStrict(t: Table, ptype: PartType, self: int, g: Geom, c: Option<Constraint>, a: Answers)
    requires Sound(t) && t.length <= LLONG_MAX && (ptype.logical ==> t.Ext().Some?)
    requires a.ignoreOutsideDisk ==> ptype.logical || c.None? || c.value.endRange.end < t.length
    ensures MoveVerdict(t, ptype, self, g, c, false, a) == MoveVerdict(t, ptype, self, g, c, false, a.Strict())
  {
    hide ExtIndex, Sound, RoomWindow, Narrow;
    SettleIsStrict(t, ptype, self, g, g.start, c, a);
  }

  // ----- Going back -----

  /** The window asked for at the start of a free interval contains it all. */
  lemma WindowHoldsFree(s: seq<Slot>, g: Geom, lo: int, hi: int)
    requires Ordered(s, lo, hi) && g.Valid() && lo <= g.start && g.end <= hi && FreeOfOthers(s, -1, g)
    ensures Window(s, -1, g.start, lo, hi).Some? && g.Inside(Window(s, -1, g.start, lo, hi).value)
  {
    hide Window;
    WindowMeaning(s, -1, g.start, lo, hi);
  }

  lemma ExactSolution(g: Geom, length: int, h: Geom)
    requires g.Valid() && g.end < length
    ensures ConstraintExact(g, length).IsSolution(h) <==> h == g
  {
  }

  /** Where the partition at index k is found after it moved to g. */
  function MovedIndex(t: Table, logical: bool, k: nat, g: Geom): nat
    requires k < |t.Siblings(logical)|
  {
    InsertPos(Without(t.Siblings(logical), k), g.end)
  }

  lemma MovedSiblings(t: Table, logical: bool, k: nat, g: Geom)
    requires k < |t.Siblings(logical)| && t.Siblings(logical)[k].ptype.logical == logical
    ensures var x, k' := t.Siblings(logical)[k], MovedIndex(t, logical, k, g);
      && k' <= |t.Siblings(logical)| - 1
      && Moved(t, logical, k, g).Siblings(logical) == With(Without(t.Siblings(logical), k), k', x.(geom := g))
      && Moved(t, logical, k, g).Siblings(!logical) == t.Siblings(!logical)
      && Moved(t, logical, k, g).length == t.length
  {
  }

  /** Moving back undoes moving. */
  lemma MovedBack(t: Table, logical: bool, k: nat, g: Geom)
    requires Sound(t) && k < |t.Siblings(logical)| && t.Siblings(logical)[k].ptype.logical == logical
    ensures MovedIndex(t, logical, k, g) < |Moved(t, logical, k, g).Siblings(logical)|
    ensures Moved(Moved(t, logical, k, g), logical, MovedIndex(t, logical, k, g), t.Siblings(logical)[k].geom) == t
  {
    hide Ordered, ExtIndex, InsertPos;
    var s := t.Siblings(logical);
    var x, k' := s[k], MovedIndex(t, logical, k, g);
    MovedSiblings(t, logical, k, g);
    WithoutWith(Without(s, k), k', x.(geom := g));
    var b := Bounds(t, logical);
    assert Ordered(s, b.start, b.end);
    InsertBack(s, k, b.start, b.end);
  }

  /** The room of a list does not depend on where one of its members lies. */
  lemma MovedRoom(t: Table, logical: bool, k: nat, g: Geom)
    requires Sound(t) && k < |t.Siblings(logical)| && t.Siblings(logical)[k].ptype.logical == logical
    ensures Room(Moved(t, logical, k, g), logical) == Room(t, logical)
    ensures logical ==> Moved(t, logical, k, g).Ext() == t.Ext()
  {
  }

  /** The geometry a partition had before is inside the window computed around
      it where it is now. */
  lemma WindowHoldsOld(t: Table, logical: bool, k: nat, g: Geom)
    requires Sound(t) && t.length <= LLONG_MAX
    requires k < |t.Siblings(logical)| && t.Siblings(logical)[k].ptype.logical == logical
    requires logical ==> t.Ext().Some? && t.Ext().value.start >= 0
    requires Sound(Moved(t, logical, k, g))
    ensures var x, k' := t.Siblings(logical)[k], MovedIndex(t, logical, k, g);
            var w := RoomWindow(Moved(t, logical, k, g), x.ptype, k', x.geom.start);
      w.Some? && x.geom.Inside(w.value)
  {
    hide Ordered, ExtIndex, InsertPos, FreeOfOthers, Moved, With, Without, AtMostOneExtended;
    var s, t2 := t.Siblings(logical), Moved(t, logical, k, g);
    var x, k' := s[k], MovedIndex(t, logical, k, g);
    var o, room := Without(s, k), Room(t, logical);
    MovedSiblings(t, logical, k, g);
    MovedRoom(t, logical, k, g);
    BoundsOrdered(t, logical);
    BoundsOrdered(t2, logical);
    WithoutWith(o, k', x.(geom := g));
    WindowIgnoresSelf(t2.Siblings(logical), k', x.geom.start, room.start, room.end);
    MemberIn(s, k, room.start, room.end);
    FreeOfRest(s, k, x.geom);
    WithoutKeepsOrder(s, k, room.start, room.end);
    WindowHoldsFree(o, x.geom, room.start, room.end);
  }

  lemma BoundsOrdered(t: Table, logical: bool)
    requires Sound(t) && t.length <= LLONG_MAX && (logical ==> t.Ext().Some?)
    ensures Ordered(t.Siblings(logical), Room(t, logical).start, Room(t, logical).end)
  {
  }

  lemma MemberIn(s: seq<Slot>, k: nat, lo: int, hi: int)
    requires Ordered(s, lo, hi) && k < |s|
    ensures lo <= s[k].geom.start <= s[k].geom.end <= hi && FreeOfOthers(s, k, s[k].geom)
  {
  }

  /** The former place of a moved partition is free of the others still. */
  lemma OldPlaceFree(t: Table, logical: bool, k: nat, g: Geom)
    requires Sound(t) && k < |t.Siblings(logical)| && t.Siblings(logical)[k].ptype.logical == logical
    ensures MovedIndex(t, logical, k, g) < |Moved(t, logical, k, g).Siblings(logical)|
    ensures FreeOfOthers(Moved(t, logical, k, g).Siblings(logical), MovedIndex(t, logical, k, g),
        t.Siblings(logical)[k].geom)
    ensures t.Siblings(logical)[k].geom.Inside(Bounds(t, logical))
  {
    hide Ordered, ExtIndex, InsertPos, FreeOfOthers, Moved, With, Without;
    var s, x, k' := t.Siblings(logical), t.Siblings(logical)[k], MovedIndex(t, logical, k, g);
    MovedSiblings(t, logical, k, g);
    var b := Bounds(t, logical);
    assert Ordered(s, b.start, b.end);
    MemberIn(s, k, b.start, b.end);
    FreeOfRest(s, k, x.geom);
    WithoutWith(Without(s, k), k', x.(geom := g));
    FreeOfRest(Moved(t, logical, k, g).Siblings(logical), k', x.geom);
  }

  /** The checks a partition passes at its place in a sound table, wherever it
      was moved in between: only the label's own check is left open. */
  lemma CheckedBack(t: Table, logical: bool, k: nat, g: Geom, a: Answers)
    requires Sound(t) && k < |t.Siblings(logical)| && t.Siblings(logical)[k].ptype.logical == logical
    requires logical ==> t.Ext().Some?
    requires Sound(Moved(t, logical, k, g))
    ensures var x := t.Siblings(logical)[k];
      Checked(Moved(t, logical, k, g), x.ptype, MovedIndex(t, logical, k, g), x.geom, a) <==>
          x.ptype.metadata || a.accepted
  {
    hide Ordered, ExtIndex, InsertPos, FreeOfOthers, Moved, With, Without;
    var t2 := Moved(t, logical, k, g);
    var x, k' := t.Siblings(logical)[k], MovedIndex(t, logical, k, g);
    MovedSiblings(t, logical, k, g);
    MovedRoom(t, logical, k, g);
    OldPlaceFree(t, logical, k, g);
    if logical {
    } else {
      ExtIsOnly(t.prims, k);
      ExtIsOnly(t2.prims, k');
      if x.ptype.IsExtended() {
        OrderedStarts(t.logs, x.geom.start, x.geom.end);
      } else if ExtIndex(t2.prims) >= 0 {
        FreeMeans(t2.prims, k', x.geom, ExtIndex(t2.prims));
      }
    }
    MemberValid(t, logical, k);
  }

  lemma FreeMeans(s: seq<Slot>, self: int, g: Geom, q: nat)
    requires FreeOfOthers(s, self, g) && q < |s| && q != self
    ensures s[q].geom.Disjoint(g)
  {
  }

  lemma MemberValid(t: Table, logical: bool, k: nat)
    requires Sound(t) && k < |t.Siblings(logical)|
    ensures t.Siblings(logical)[k].geom.start <= t.Siblings(logical)[k].geom.end
    ensures logical && t.Ext().Some? ==>
        t.Siblings(logical)[k].geom.Inside(t.Ext().value) && t.Ext().value.end < t.length
  {
  }

  /** Asking for exactly the old geometry back succeeds if and only if the
      label accepts it, and then the table is what it was. */
  lemma RestoreVerdict(t: Table, logical: bool, k: nat, g: Geom, a: Answers)
    requires Sound(t) && t.length <= LLONG_MAX
    requires k < |t.Siblings(logical)| && t.Siblings(logical)[k].ptype.logical == logical
    requires logical ==> t.Ext().Some? && t.Ext().value.start >= 0
    requires Sound(Moved(t, logical, k, g))
    ensures var x, k', t2 := t.Siblings(logical)[k], MovedIndex(t, logical, k, g), Moved(t, logical, k, g);
            var v := MoveVerdict(t2, x.ptype, k', x.geom, Some(ConstraintExact(x.geom, t.length)), false, a);
      && (v.Placed? <==> a.aligned == Some(x.geom) && (x.ptype.metadata || a.accepted))
      && (v.Placed? ==> v.geom == x.geom && Moved(t2, logical, k', v.geom) == t)
      && (!v.Placed? ==> GeomAt(v, g, x.geom) == x.geom)
  {
    hide Sound, ExtIndex, InsertPos, RoomWindow, Moved, Checked, Narrow;
    var x, k', t2 := t.Siblings(logical)[k], MovedIndex(t, logical, k, g), Moved(t, logical, k, g);
    var c := ConstraintExact(x.geom, t.length);
    var w := RoomWindow(t2, x.ptype, k', x.geom.start);
    MemberValid(t, logical, k);
    OldPlaceFree(t, logical, k, g);
    WindowHoldsOld(t, logical, k, g);
    ExactSolution(x.geom, t.length, x.geom);
    NarrowSolutions(w.value, c, x.geom);
    if a.aligned.Some? && a.aligned.value.Valid() {
      ExactSolution(x.geom, t.length, a.aligned.value);
      NarrowSolutions(w.value, c, a.aligned.value);
    }
    CheckedBack(t, logical, k, g, a);
    MovedBack(t, logical, k, g);
  }
}
