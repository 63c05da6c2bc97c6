// Where a partition may go: the overlap window, the checks, and the verdict
// that ped_disk_add_partition and ped_disk_set_partition_geom reach.

module Placement {
  import opened Common
  import opened Geometry
  import opened Layout

  // ----- The overlap window -----

  /** _partition_get_overlap_constraint from sibling i on, with min_start at
      lo; self is the index of the partition itself, -1 if it is not linked. */
  function WindowFrom(s: seq<Slot>, self: int, i: nat, from: int, lo: int, hi: int): Option<Geom>
    requires i <= |s|
    decreases |s| - i
  {
    if i < |s| && (s[i].geom.start < from || lo >= s[i].geom.start) then
      WindowFrom(s, self, i + 1, from, if i == self then lo else s[i].geom.end + 1, hi)
    else
      var next := if i == self && i < |s| then i + 1 else i;
      var end := if next < |s| then s[next].geom.start - 1 else hi;
      if lo > end then None else Some(Geom(lo, end))
  }

  function Window(s: seq<Slot>, self: int, from: int, lo: int, hi: int): Option<Geom> {
    WindowFrom(s, self, 0, from, lo, hi)
  }

  lemma WindowStep(s: seq<Slot>, self: int, i: nat, from: int, lo: int, hi: int)
    requires i < |s| && (s[i].geom.start < from || lo >= s[i].geom.start)
    ensures WindowFrom(s, self, i, from, lo, hi)
         == WindowFrom(s, self, i + 1, from, if i == self then lo else s[i].geom.end + 1, hi)
  {
  }

  lemma WindowStop(s: seq<Slot>, self: int, i: nat, from: int, lo: int, hi: int)
    requires i <= |s| && (i < |s| ==> s[i].geom.start >= from && lo < s[i].geom.start)
    ensures var next := if i == self && i < |s| then i + 1 else i;
            var end := if next < |s| then s[next].geom.start - 1 else hi;
      WindowFrom(s, self, i, from, lo, hi) == if lo > end then None else Some(Geom(lo, end))
  {
  }

  /** Sector x belongs to a sibling other than the partition itself. */
  ghost predicate Owned(s: seq<Slot>, self: int, x: int) {
    exists q :: 0 <= q < |s| && q != self && s[q].geom.Has(x)
  }

  ghost predicate FreeOfOthers(s: seq<Slot>, self: int, g: Geom) {
    forall q :: 0 <= q < |s| && q != self ==> s[q].geom.Disjoint(g)
  }

  /** w cannot be widened within lo..hi without meeting another sibling. */
  ghost predicate Maximal(s: seq<Slot>, self: int, w: Geom, lo: int, hi: int) {
    && (w.start == lo || exists q :: 0 <= q < |s| && q != self && s[q].geom.end == w.start - 1)
    && (w.end == hi || exists q :: 0 <= q < |s| && q != self && s[q].geom.start == w.end + 1)
  }

  /** Where a request starting at from begins to look: the gap that ends right
      in front of it counts, and so does the last sector of the room. */
  function LookFrom(from: int, hi: int): int {
    if from > hi then hi else from - 1
  }

  /** r is the window a request starting at from gets: the first of the maximal
      free intervals that reach up to there; it is missing only if no sector of
      lo..hi from there on is free; and if from itself is free, the window
      contains it. */
  ghost predicate IsWindow(s: seq<Slot>, self: int, from: int, lo: int, hi: int, r: Option<Geom>) {
    && match r {
         case None => OwnedFrom(s, self, LookFrom(from, hi), lo, hi + 1)
         case Some(w) =>
           && lo <= w.start <= w.end <= hi
           && FreeOfOthers(s, self, w)
           && Maximal(s, self, w, lo, hi)
           && LookFrom(from, hi) <= w.end
           && OwnedFrom(s, self, LookFrom(from, hi), lo, w.start)
       }
    && (lo <= from <= hi && !Owned(s, self, from) ==> r.Some? && r.value.Has(from))
  }

  ghost predicate OwnedFrom(s: seq<Slot>, self: int, from: int, lo: int, end: int) {
    forall x :: from <= x && lo <= x < end ==> Owned(s, self, x)
  }

  lemma WindowMeaning(s: seq<Slot>, self: int, from: int, lo: int, hi: int)
    requires Ordered(s, lo, hi)
    ensures IsWindow(s, self, from, lo, hi, Window(s, self, from, lo, hi))
  {
    WindowFromMeaning(s, self, 0, from, lo, lo, hi);
  }

  /** No other interval is such a window. */
  lemma WindowUnique(s: seq<Slot>, self: int, from: int, lo: int, hi: int, r: Option<Geom>)
    requires Ordered(s, lo, hi) && IsWindow(s, self, from, lo, hi, r)
    ensures r == Window(s, self, from, lo, hi)
  {
    hide Ordered, Window;
    WindowMeaning(s, self, from, lo, hi);
    OneWindow(s, self, from, lo, hi, r, Window(s, self, from, lo, hi));
  }

  lemma OneWindow(s: seq<Slot>, self: int, from: int, lo: int, hi: int, r: Option<Geom>, w: Option<Geom>)
    requires Ordered(s, lo, hi) && IsWindow(s, self, from, lo, hi, r) && IsWindow(s, self, from, lo, hi, w)
    ensures r == w
  {
    hide Ordered, Maximal, FreeOfOthers;
    if r.Some? && w.Some? {
      NoEarlier(s, self, from, lo, hi, r.value, w.value);
      NoEarlier(s, self, from, lo, hi, w.value, r.value);
      SameMaximal(s, self, lo, hi, r.value, w.value);
    } else if r.Some? {
      LooksAt(s, self, from, lo, hi, r.value, hi + 1);
    } else if w.Some? {
      LooksAt(s, self, from, lo, hi, w.value, hi + 1);
    }
  }

  /** The last sector of a free interval is not owned. */
  lemma LooksAt(s: seq<Slot>, self: int, from: int, lo: int, hi: int, w: Geom, end: int)
    requires FreeOfOthers(s, self, w) && lo <= w.start <= w.end && LookFrom(from, hi) <= w.end
    ensures OwnedFrom(s, self, LookFrom(from, hi), lo, end) ==> w.end >= end
  {
    assert !Owned(s, self, w.end);
  }

  lemma NoEarlier(s: seq<Slot>, self: int, from: int, lo: int, hi: int, r: Geom, w: Geom)
    requires IsWindow(s, self, from, lo, hi, Some(r)) && IsWindow(s, self, from, lo, hi, Some(w))
    ensures w.end >= r.start
  {
    hide FreeOfOthers, Maximal, OwnedFrom;
    LooksAt(s, self, from, lo, hi, w, r.start);
  }

  /** Maximal free intervals that meet are the same. */
  lemma SameMaximal(s: seq<Slot>, self: int, lo: int, hi: int, r: Geom, w: Geom)
    requires FreeOfOthers(s, self, r) && Maximal(s, self, r, lo, hi) && lo <= r.start <= r.end <= hi
    requires FreeOfOthers(s, self, w) && Maximal(s, self, w, lo, hi) && lo <= w.start <= w.end <= hi
    requires Ordered(s, lo, hi) && r.end >= w.start && w.end >= r.start
    ensures r == w
  {
    MaximalIn(s, self, lo, hi, r, w);
    MaximalIn(s, self, lo, hi, w, r);
  }

  lemma MaximalIn(s: seq<Slot>, self: int, lo: int, hi: int, r: Geom, w: Geom)
    requires FreeOfOthers(s, self, r) && lo <= r.start && r.end <= hi
    requires Maximal(s, self, w, lo, hi) && r.end >= w.start && w.end >= r.start
    requires forall q :: 0 <= q < |s| ==> s[q].geom.start <= s[q].geom.end
    ensures r.Inside(w)
  {
  }

  /** The state of the search from at on, at sibling i, with min_start at lo. */
  ghost predicate Walked(s: seq<Slot>, self: int, i: nat, at: int, base: int, lo: int) {
    && base <= lo
    && i <= |s|
    && (forall q :: 0 <= q < i && q != self ==> s[q].geom.end < lo)
    && (forall q :: i <= q < |s| ==> lo <= s[q].geom.start)
    && (lo == base || exists q :: 0 <= q < |s| && q != self && s[q].geom.end == lo - 1)
    && OwnedFrom(s, self, at, base, lo)
  }

  lemma WalkedStep(s: seq<Slot>, self: int, i: nat, from: int, base: int, lo: int, hi: int)
    requires Ordered(s, base, hi) && i < |s| && Walked(s, self, i, LookFrom(from, hi), base, lo)
    requires s[i].geom.start < from || lo >= s[i].geom.start
    ensures Walked(s, self, i + 1, LookFrom(from, hi), base, if i == self then lo else s[i].geom.end + 1)
  {
    if i != self {
      forall x | LookFrom(from, hi) <= x && base <= x < s[i].geom.end + 1
        ensures Owned(s, self, x)
      {
        if x >= lo {
          assert s[i].geom.Has(x);
        }
      }
    }
  }

  lemma WalkedStop(s: seq<Slot>, self: int, i: nat, from: int, base: int, lo: int, hi: int)
    requires Ordered(s, base, hi) && Walked(s, self, i, LookFrom(from, hi), base, lo)
    requires i < |s| ==> s[i].geom.start >= from && s[i].geom.start > lo
    ensures var next := if i == self && i < |s| then i + 1 else i;
            var end := if next < |s| then s[next].geom.start - 1 else hi;
            IsWindow(s, self, from, base, hi, if lo > end then None else Some(Geom(lo, end)))
  {
    var next := if i == self && i < |s| then i + 1 else i;
    var end := if next < |s| then s[next].geom.start - 1 else hi;
    if base <= from <= hi && !Owned(s, self, from) {
      assert next < |s| ==> !s[next].geom.Has(from);
    }
  }

  lemma {:induction false} WindowFromMeaning(s: seq<Slot>, self: int, i: nat, from: int, base: int, lo: int, hi: int)
    requires Ordered(s, base, hi) && Walked(s, self, i, LookFrom(from, hi), base, lo)
    ensures IsWindow(s, self, from, base, hi, WindowFrom(s, self, i, from, lo, hi))
    decreases |s| - i
  {
    assert i <= |s|;
    hide WindowFrom, Walked, IsWindow, Ordered;
    if i < |s| && (s[i].geom.start < from || lo >= s[i].geom.start) {
      WindowStep(s, self, i, from, lo, hi);
      WalkedStep(s, self, i, from, base, lo, hi);
      WindowFromMeaning(s, self, i + 1, from, base, if i == self then lo else s[i].geom.end + 1, hi);
    } else {
      WindowStop(s, self, i, from, lo, hi);
      WalkedStop(s, self, i, from, base, lo, hi);
    }
  }

  /** Whether or not the partition itself is linked, the window is computed
      from its siblings alone. */
  lemma WindowIgnoresSelf(s: seq<Slot>, self: nat, from: int, lo: int, hi: int)
    requires Ordered(s, lo, hi) && self < |s|
    ensures Window(s, self, from, lo, hi) == Window(Without(s, self), -1, from, lo, hi)
  {
    WindowFromIgnoresSelf(s, self, 0, from, lo, lo, hi);
  }

  lemma {:induction false} WindowFromIgnoresSelf(s: seq<Slot>, self: nat, i: nat, from: int, base: int, lo: int,
      hi: int)
    requires Ordered(s, base, hi) && self < |s| && i <= |s|
    requires i < |s| ==> lo <= s[i].geom.start
    ensures WindowFrom(s, self, i, from, lo, hi)
         == WindowFrom(Without(s, self), -1, if i <= self then i else i - 1, from, lo, hi)
    decreases |s| - i
  {
    hide Without, WindowFrom, Ordered;
    NextStarts(s, i, base, hi);
    if i == |s| || (s[i].geom.start >= from && lo < s[i].geom.start) {
      StopIgnoresSelf(s, self, i, from, lo, hi);
    } else {
      WindowStep(s, self, i, from, lo, hi);
      if i != self {
        WithoutAt(s, self, i);
        WindowStep(Without(s, self), -1, if i < self then i else i - 1, from, lo, hi);
      }
      WindowFromIgnoresSelf(s, self, i + 1, from, base, if i == self then lo else s[i].geom.end + 1, hi);
    }
  }

  /** The search stops at the same place. */
  lemma StopIgnoresSelf(s: seq<Slot>, self: nat, i: nat, from: int, lo: int, hi: int)
    requires self < |s| && i <= |s| && (i < |s| ==> s[i].geom.start >= from && lo < s[i].geom.start)
    requires i + 1 < |s| ==> s[i].geom.start < s[i + 1].geom.start
    ensures WindowFrom(s, self, i, from, lo, hi)
         == WindowFrom(Without(s, self), -1, if i <= self then i else i - 1, from, lo, hi)
  {
    WithoutAt(s, self, i);
    WithoutAt(s, self, i + 1);
    var o, j := Without(s, self), if i <= self then i else i - 1;
    hide Without, WindowFrom;
    WindowStop(s, self, i, from, lo, hi);
    WindowStop(o, -1, j, from, lo, hi);
  }

  lemma NextStarts(s: seq<Slot>, i: nat, lo: int, hi: int)
    requires Ordered(s, lo, hi)
    ensures i + 1 < |s| ==> s[i].geom.start <= s[i].geom.end < s[i + 1].geom.start
  {
  }

  lemma WithoutAt(s: seq<Slot>, k: nat, i: nat)
    requires k < |s|
    ensures i < k ==> Without(s, k)[i] == s[i]
    ensures k < i < |s| ==> Without(s, k)[i - 1] == s[i]
  {
  }

  // ----- Linking in sorted order -----

  /** Where _disk_raw_add links a partition that ends at end. */
  function InsertPos(s: seq<Slot>, end: int): (k: nat)
    ensures k <= |s|
    ensures forall i :: 0 <= i < k ==> s[i].geom.start <= end
    ensures k < |s| ==> s[k].geom.start > end
  {
    if s == [] || s[0].geom.start > end then 0 else 1 + InsertPos(s[1..], end)
  }

  lemma InsertPosIs(s: seq<Slot>, end: int, k: nat)
    requires k <= |s| && forall i :: 0 <= i < k ==> s[i].geom.start <= end
    requires k < |s| ==> s[k].geom.start > end
    ensures InsertPos(s, end) == k
  {
    var p := InsertPos(s, end);
    assert p < |s| ==> s[p].geom.start > end;
  }

  function Insert(s: seq<Slot>, x: Slot): seq<Slot> {
    With(s, InsertPos(s, x.geom.end), x)
  }

  lemma InsertKeepsOrder(s: seq<Slot>, x: Slot, lo: int, hi: int)
    requires Ordered(s, lo, hi)
    requires lo <= x.geom.start <= x.geom.end <= hi && FreeOfOthers(s, -1, x.geom)
    ensures Ordered(Insert(s, x), lo, hi)
  {
    hide InsertPos, With;
    var k := InsertPos(s, x.geom.end);
    assert forall i :: k < i < |s| ==> s[k].geom.start <= s[i].geom.start;
    OrderedWith(s, k, x, lo, hi);
  }

  lemma OrderedWith(s: seq<Slot>, k: nat, x: Slot, lo: int, hi: int)
    requires Ordered(s, lo, hi) && k <= |s| && lo <= x.geom.start <= x.geom.end <= hi
    requires forall i :: 0 <= i < k ==> s[i].geom.end < x.geom.start
    requires forall i :: k <= i < |s| ==> x.geom.end < s[i].geom.start
    ensures Ordered(With(s, k, x), lo, hi)
  {
    var r := With(s, k, x);
    assert forall i :: 0 <= i < k ==> r[i] == s[i];
    assert forall i :: k < i < |r| ==> r[i] == s[i - 1];
    hide With;
    forall i, j | 0 <= i < j < |r|
      ensures r[i].geom.end < r[j].geom.start
    {
      if i < k < j {
        assert r[j] == s[j - 1];
      }
    }
  }

  /** Order alone says where a member of an ordered list belongs. */
  lemma InsertBack(s: seq<Slot>, k: nat, lo: int, hi: int)
    requires Ordered(s, lo, hi) && k < |s|
    ensures InsertPos(Without(s, k), s[k].geom.end) == k
    ensures Insert(Without(s, k), s[k]) == s
  {
    var o := Without(s, k);
    var p := InsertPos(o, s[k].geom.end);
    assert p < |o| ==> o[p] == s[if p < k then p else p + 1];
    assert k < |o| ==> o[k] == s[k + 1];
    WithWithout(s, k);
  }

  lemma WithoutKeepsOrder(s: seq<Slot>, k: nat, lo: int, hi: int)
    requires Ordered(s, lo, hi) && k < |s|
    ensures Ordered(Without(s, k), lo, hi)
    ensures FreeOfOthers(Without(s, k), -1, s[k].geom)
  {
  }

  // ----- Verdicts -----

  /** What the label code and the exception handler answer during one call:
      whether a number could be given, the geometry the label aligns to (None
      when it finds none), whether its partition_check accepts, and at which
      of the four exceptions the handler answers IGNORE. */
  datatype Answers = Answers(
      numbered: bool, aligned: Option<Geom>, accepted: bool,
      ignoreOverlap: bool, ignoreOutsideExtended: bool, ignoreInsideExtended: bool, ignoreOutsideDisk: bool) {

    /** The same, but IGNORE is answered neither to an overlap nor at the end of
        the device. */
    function Strict(): Answers {
      this.(ignoreOverlap := false, ignoreOutsideDisk := false)
    }
  }

  datatype Verdict = Overlap | Unnumbered | Unaligned | Refused(geom: Geom) | Placed(geom: Geom)

  /** _partition_align: skipped while reading the table of a device that still
      needs clobbering; otherwise the label answers with a solution of the
      constraint, or fails. */
  function Align(clobber: bool, c: Option<Constraint>, g: Geom, answer: Option<Geom>): Option<Geom> {
    if clobber then Some(g)
    else if c.Some? && answer.Some? && answer.value.Valid() && c.value.IsSolution(answer.value) then answer
    else None
  }

  /** _check_partition for a partition of type ptype at g; self is its index
      among its siblings in t, -1 if it is not linked. */
  predicate Checked(t: Table, ptype: PartType, self: int, g: Geom, a: Answers) {
    var e := ExtIndex(t.prims);
    var isOwn := ptype.IsExtended() && e >= 0 && self == e;
    && (ptype.IsExtended() ==> (e < 0 || isOwn) && (forall i :: 0 <= i < |t.logs| ==> t.logs[i].geom.Inside(g)))
    && (ptype.logical ==> (e >= 0 && g.Inside(t.prims[e].geom)) || a.ignoreOutsideExtended)
    && (!ptype.logical && e >= 0 && !isOwn && g.Inside(t.prims[e].geom) ==> a.ignoreInsideExtended)
    && (g.end >= t.length ==> a.ignoreOutsideDisk)
    && (ptype.metadata || a.accepted)
  }

  function Settle(t: Table, ptype: PartType, self: int, g: Geom, c: Option<Constraint>, clobber: bool,
      a: Answers): Verdict {
    match Align(clobber, c, g, a.aligned)
    case None => Unaligned
    case Some(h) => if Checked(t, ptype, self, h, a) then Placed(h) else Refused(h)
  }

  /** The sectors among which the siblings of such a partition live. */
  function Room(t: Table, logical: bool): Geom {
    if logical then
      match t.Ext()
      case Some(e) => e
      case None => Geom(0, -1)
    else Geom(0, LLONG_MAX - 1)
  }

  function RoomWindow(t: Table, ptype: PartType, self: int, from: int): Option<Geom> {
    var room := Room(t, ptype.logical);
    Window(t.Siblings(ptype.logical), self, from, room.start, room.end)
  }

  /** ped_disk_add_partition, from the overlap constraint to the last check. */
  function AddVerdict(t: Table, ptype: PartType, g: Geom, c: Option<Constraint>, clobber: bool, a: Answers): Verdict {
    if ptype.IsActive() then
      var both := Narrow(RoomWindow(t, ptype, -1, g.start), c);
      if both.None? && c.Some? && !a.ignoreOverlap then Overlap
      else if !a.numbered then Unnumbered
      else Settle(t, ptype, -1, g, if both.None? && c.Some? then c else both, clobber, a)
    else if Checked(t, ptype, -1, g, a) then Placed(g)
    else Refused(g)
  }

  /** ped_disk_set_partition_geom, for the partition at index self. */
  function MoveVerdict(t: Table, ptype: PartType, self: int, g: Geom, c: Option<Constraint>, clobber: bool,
      a: Answers): Verdict {
    var both := Narrow(RoomWindow(t, ptype, self, g.start), c);
    if both.None? && c.Some? then Overlap
    else Settle(t, ptype, self, g, both, clobber, a)
  }

  /** The geometry a partition has been given when its verdict is reached. */
  function GeomAt(v: Verdict, was: Geom, requested: Geom): Geom {
    match v
    case Placed(h) => h
    case Refused(h) => h
    case Unaligned => requested
    case _ => was
  }

  // ----- Results -----

  /** The partition at index k overwritten with geometry g, where it is. */
  function Regeom(t: Table, logical: bool, k: nat, g: Geom): Table
    requires k < |t.Siblings(logical)|
  {
    t.WithSiblings(logical, t.Siblings(logical)[k := t.Siblings(logical)[k].(geom := g)])
  }

  function Added(t: Table, x: Slot): Table {
    t.WithSiblings(x.ptype.logical, Insert(t.Siblings(x.ptype.logical), x))
  }

  function Removed(t: Table, logical: bool, k: nat): Table
    requires k < |t.Siblings(logical)|
  {
    t.WithSiblings(logical, Without(t.Siblings(logical), k))
  }

  /** The partition at index k relinked with geometry g. */
  function Moved(t: Table, logical: bool, k: nat, g: Geom): Table
    requires k < |t.Siblings(logical)|
  {
    Added(Removed(t, logical, k), t.Siblings(logical)[k].(geom := g))
  }

  lemma RegeomTwice(t: Table, logical: bool, k: nat, g: Geom, h: Geom)
    requires k < |t.Siblings(logical)|
    ensures Regeom(Regeom(t, logical, k, g), logical, k, h) == Regeom(t, logical, k, h)
    ensures t.Siblings(logical)[k].geom == g ==> Regeom(t, logical, k, g) == t
  {
    var s := t.Siblings(logical);
    assert s[k := s[k].(geom := g)][k := s[k].(geom := h)] == s[k := s[k].(geom := h)];
    assert s[k].geom == g ==> s[k := s[k].(geom := g)] == s;
  }

  lemma MovedRegeom(t: Table, logical: bool, k: nat, g: Geom)
    requires k < |t.Siblings(logical)|
    ensures Moved(Regeom(t, logical, k, g), logical, k, g) == Moved(t, logical, k, g)
  {
    var s := t.Siblings(logical);
    assert Without(s[k := s[k].(geom := g)], k) == Without(s, k);
  }

  lemma ExtIndexRegeom(s: seq<Slot>, k: nat, g: Geom)
    requires k < |s|
    ensures ExtIndex(s[k := s[k].(geom := g)]) == ExtIndex(s)
  {
    var r := s[k := s[k].(geom := g)];
    assert forall i :: 0 <= i < |s| ==> r[i].ptype == s[i].ptype;
    var a, b := ExtIndex(r), ExtIndex(s);
    assert a >= 0 ==> r[a].ptype.IsExtended() && s[a].ptype.IsExtended();
    assert b >= 0 ==> s[b].ptype.IsExtended() && r[b].ptype.IsExtended();
  }

  /** The checks do not look at the geometry the partition itself had. */
  lemma CheckedRegeom(t: Table, logical: bool, k: nat, h: Geom, g: Geom, a: Answers)
    requires k < |t.Siblings(logical)| && t.Siblings(logical)[k].ptype.logical == logical
    requires AtMostOneExtended(t.prims)
    ensures var ptype := t.Siblings(logical)[k].ptype;
      Checked(Regeom(t, logical, k, h), ptype, k, g, a) == Checked(t, ptype, k, g, a)
  {
    hide ExtIndex;
    if !logical {
      ExtIndexRegeom(t.prims, k, h);
    }
  }
}
