// The partition table as a value: what the two linked lists of a PedDisk say
// about the sectors of the device, and the calculations disk.c makes on them.

module Layout {
  import opened Common
  import opened Geometry

  /** The bits of PedPartitionType. */
  datatype PartType = PartType(logical: bool, extended: bool, free: bool, metadata: bool) {
    predicate IsExtended() {
      this == EXTENDED
    }

    /** ped_partition_is_active. */
    predicate IsActive() {
      !free && !metadata
    }
  }

  const EXTENDED := PartType(false, true, false, false)

  datatype Slot = Slot(ptype: PartType, geom: Geom)

  predicate IsUsed(s: Slot) {
    !s.ptype.free
  }

  function FreeSlot(logical: bool, start: int, end: int): Slot {
    Slot(PartType(logical, false, true, false), Geom(start, end))
  }

  /** The extended partition of a primary list: the first exact EXTENDED. */
  function ExtIndex(s: seq<Slot>): (r: int)
    ensures -1 <= r < |s|
    ensures r >= 0 ==> s[r].ptype.IsExtended()
    ensures forall i :: 0 <= i < (if r >= 0 then r else |s|) ==> !s[i].ptype.IsExtended()
  {
    if s == [] then -1
    else if s[0].ptype.IsExtended() then 0
    else
      var r := ExtIndex(s[1..]);
      if r < 0 then -1 else r + 1
  }

  datatype Table = Table(length: int, prims: seq<Slot>, logs: seq<Slot>) {
    function Ext(): Option<Geom> {
      var e := ExtIndex(prims);
      if e < 0 then None else Some(prims[e].geom)
    }

    function Siblings(logical: bool): seq<Slot> {
      if logical then logs else prims
    }

    function WithSiblings(logical: bool, s: seq<Slot>): Table {
      if logical then this.(logs := s) else this.(prims := s)
    }
  }

  // ----- The layout invariant -----

  /** Sorted, pairwise disjoint, and inside lo..hi. */
  ghost predicate Ordered(s: seq<Slot>, lo: int, hi: int) {
    && (forall i :: 0 <= i < |s| ==> lo <= s[i].geom.start <= s[i].geom.end <= hi)
    && (forall i, j :: 0 <= i < j < |s| ==> s[i].geom.end < s[j].geom.start)
  }

  ghost predicate AtMostOneExtended(s: seq<Slot>) {
    forall i :: 0 <= i < |s| && s[i].ptype.IsExtended() ==> i == ExtIndex(s)
  }

  ghost predicate Sound(t: Table) {
    && Ordered(t.prims, 0, t.length - 1)
    && AtMostOneExtended(t.prims)
    && match t.Ext()
       case None => t.logs == []
       case Some(e) => Ordered(t.logs, e.start, e.end)
  }

  // ----- Free-space placeholders -----

  /** The list with a placeholder in every gap, given that everything up to
      last is taken and that hi is the final sector. */
  function Fill(s: seq<Slot>, last: int, hi: int, logical: bool): (r: seq<Slot>)
    ensures |r| >= |s|
  {
    if s == [] then
      if last < hi then [FreeSlot(logical, last + 1, hi)] else []
    else
      (if s[0].geom.start > last + 1 then [FreeSlot(logical, last + 1, s[0].geom.start - 1)] else [])
      + [s[0]] + Fill(s[1..], s[0].geom.end, hi, logical)
  }

  /** Both lists with their placeholders. */
  function Filled(t: Table): Table {
    Table(t.length,
          Fill(t.prims, -1, t.length - 1, false),
          match t.Ext() case None => t.logs case Some(e) => Fill(t.logs, e.start, e.end, true))
  }

  /** Contiguous, and covering lo..hi exactly. */
  ghost predicate Tiled(s: seq<Slot>, lo: int, hi: int) {
    if s == [] then lo == hi + 1
    else
      && s[0].geom.start == lo
      && lo <= s[0].geom.end <= hi
      && Tiled(s[1..], s[0].geom.end + 1, hi)
  }

  /** Where the tiling of a logical list starts: at the extended's first
      sector only if a logical begins there. */
  function LogicalLo(logs: seq<Slot>, e: Geom): int {
    if logs != [] && logs[0].geom.start == e.start then e.start else e.start + 1
  }

  lemma OrderedTail(s: seq<Slot>, lo: int, hi: int)
    requires Ordered(s, lo, hi) && s != []
    ensures Ordered(s[1..], s[0].geom.end + 1, hi)
  {
  }

  /** Filling an ordered list leaves no sector out and none doubly owned. */
  lemma {:induction false} FillTiles(s: seq<Slot>, last: int, hi: int, logical: bool)
    requires Ordered(s, last + 1, hi) && last <= hi
    ensures Tiled(Fill(s, last, hi, logical), last + 1, hi)
  {
    if s != [] {
      OrderedTail(s, last + 1, hi);
      FillTiles(s[1..], s[0].geom.end, hi, logical);
      var rest := Fill(s[1..], s[0].geom.end, hi, logical);
      assert ([s[0]] + rest)[1..] == rest;
      if s[0].geom.start > last + 1 {
        var gap := FreeSlot(logical, last + 1, s[0].geom.start - 1);
        assert ([gap] + [s[0]] + rest)[1..] == [s[0]] + rest;
      }
    }
  }

  /** The logical list covers extended.start + 1 .. extended.end, and
      extended.start as well iff a logical begins there. */
  lemma FillTilesLogicals(logs: seq<Slot>, e: Geom)
    requires Ordered(logs, e.start, e.end) && e.start <= e.end
    ensures Tiled(Fill(logs, e.start, e.end, true), LogicalLo(logs, e), e.end)
  {
    if logs == [] || logs[0].geom.start > e.start {
      FillTiles(logs, e.start, e.end, true);
    } else {
      FillTiles(logs, e.start - 1, e.end, true);
      assert Fill(logs, e.start, e.end, true) == Fill(logs, e.start - 1, e.end, true);
    }
  }

  /** Every sector of a tiled range lies in exactly one slot. */
  lemma {:induction false} TiledOwner(s: seq<Slot>, lo: int, hi: int, x: int) returns (k: nat)
    requires Tiled(s, lo, hi) && lo <= x <= hi
    ensures k < |s| && s[k].geom.Has(x)
    ensures forall i :: 0 <= i < |s| && i != k ==> !s[i].geom.Has(x)
  {
    TiledOrdered(s, lo, hi);
    if s[0].geom.Has(x) {
      k := 0;
    } else {
      k := TiledOwner(s[1..], s[0].geom.end + 1, hi, x);
      k := k + 1;
    }
  }

  lemma {:induction false} TiledOrdered(s: seq<Slot>, lo: int, hi: int)
    requires Tiled(s, lo, hi)
    ensures Ordered(s, lo, hi)
  {
    if s != [] {
      TiledOrdered(s[1..], s[0].geom.end + 1, hi);
      assert forall i :: 0 < i < |s| ==> s[i] == s[1..][i - 1];
    }
  }

  /** One step of Fill, with or without a gap before the head. */
  lemma FillStep(u: Slot, rest: seq<Slot>, last: int, hi: int, logical: bool)
    ensures u.geom.start > last + 1 ==>
      Fill([u] + rest, last, hi, logical)
      == [FreeSlot(logical, last + 1, u.geom.start - 1), u] + Fill(rest, u.geom.end, hi, logical)
    ensures u.geom.start <= last + 1 ==>
      Fill([u] + rest, last, hi, logical) == [u] + Fill(rest, u.geom.end, hi, logical)
  {
    assert ([u] + rest)[1..] == rest;
  }

  lemma FilterStep(u: Slot, rest: seq<Slot>)
    ensures Filter(IsUsed, [u] + rest) == (if IsUsed(u) then [u] else []) + Filter(IsUsed, rest)
  {
    assert ([u] + rest)[1..] == rest;
  }

  /** Stripping what Fill added gives back the list. */
  lemma {:induction false} FillStrip(s: seq<Slot>, last: int, hi: int, logical: bool)
    requires forall x :: x in s ==> IsUsed(x)
    ensures Filter(IsUsed, Fill(s, last, hi, logical)) == s
  {
    if s == [] {
      FilterNone(IsUsed, Fill(s, last, hi, logical));
    } else {
      var u, rest := s[0], Fill(s[1..], s[0].geom.end, hi, logical);
      FillStrip(s[1..], u.geom.end, hi, logical);
      assert s == [u] + s[1..];
      hide Fill, Filter;
      FillStep(u, s[1..], last, hi, logical);
      FilterStep(u, rest);
      if u.geom.start > last + 1 {
        var gap := FreeSlot(logical, last + 1, u.geom.start - 1);
        FilterStep(gap, [u] + rest);
        assert [gap, u] + rest == [gap] + ([u] + rest);
      }
    }
  }

  /** No two placeholders next to each other, each of the list's own kind. */
  ghost predicate Coalesced(s: seq<Slot>, logical: bool) {
    && (forall i :: 0 <= i < |s| && !IsUsed(s[i]) ==> s[i].ptype == PartType(logical, false, true, false))
    && (forall i :: 0 <= i < |s| - 1 ==> IsUsed(s[i]) || IsUsed(s[i + 1]))
  }

  /** The placeholders Fill chooses are the only ones possible: any
      contiguous cover without adjacent placeholders is the filled list of
      its own used slots. */
  lemma {:induction false} FillUnique(t: seq<Slot>, last: int, hi: int, logical: bool)
    requires Tiled(t, last + 1, hi) && Coalesced(t, logical)
    ensures t == Fill(Filter(IsUsed, t), last, hi, logical)
    decreases t, 1
  {
    if t == [] || IsUsed(t[0]) {
      FillUniqueAfterGap(t, last, hi, logical);
    } else {
      var u, rest := t[0], t[1..];
      assert t == [u] + rest;
      CoalescedTail(t, logical);
      FilterStep(u, rest);
      FillUniqueAfterGap(rest, u.geom.end, hi, logical);
      var used := Filter(IsUsed, rest);
      FillGap(used, last, u.geom.end, hi, logical);
      assert u == FreeSlot(logical, last + 1, u.geom.end);
      assert Filter(IsUsed, [u] + rest) == used;
    }
  }

  /** A list that starts right after mid is filled with one placeholder for
      last + 1 .. mid in front. */
  lemma FillGap(s: seq<Slot>, last: int, mid: int, hi: int, logical: bool)
    requires last < mid
    requires if s == [] then mid == hi else s[0].geom.start == mid + 1
    ensures Fill(s, last, hi, logical) == [FreeSlot(logical, last + 1, mid)] + Fill(s, mid, hi, logical)
  {
    if s != [] {
      assert s == [s[0]] + s[1..];
      FillStep(s[0], s[1..], last, hi, logical);
      FillStep(s[0], s[1..], mid, hi, logical);
    }
  }

  lemma CoalescedTail(t: seq<Slot>, logical: bool)
    requires Coalesced(t, logical) && t != []
    ensures Coalesced(t[1..], logical)
    ensures !IsUsed(t[0]) ==> t[0].ptype == PartType(logical, false, true, false)
    ensures !IsUsed(t[0]) && |t| > 1 ==> IsUsed(t[1])
  {
    var r := t[1..];
    assert forall i :: 0 <= i < |r| ==> r[i] == t[i + 1];
  }

  /** What follows a placeholder is empty or starts with a used slot. */
  lemma {:induction false} FillUniqueAfterGap(t: seq<Slot>, last: int, hi: int, logical: bool)
    requires Tiled(t, last + 1, hi) && Coalesced(t, logical)
    requires t == [] || IsUsed(t[0])
    ensures t == Fill(Filter(IsUsed, t), last, hi, logical)
    ensures t != [] ==> Filter(IsUsed, t) == [t[0]] + Filter(IsUsed, t[1..])
    decreases t, 0
  {
    if t != [] {
      CoalescedTail(t, logical);
      assert t == [t[0]] + t[1..];
      FilterStep(t[0], t[1..]);
      FillUnique(t[1..], t[0].geom.end, hi, logical);
      FillStep(t[0], Filter(IsUsed, t[1..]), last, hi, logical);
    }
  }

  /** Both lists tile their ranges. */
  ghost predicate TiledTable(t: Table) {
    && Tiled(t.prims, 0, t.length - 1)
    && match t.Ext()
       case None => t.logs == []
       case Some(e) => Tiled(t.logs, LogicalLo(t.logs, e), e.end)
  }

  /** Both lists have the same extended slot, or neither has one. */
  predicate SameExt(s: seq<Slot>, r: seq<Slot>) {
    var e, i := ExtIndex(s), ExtIndex(r);
    if e < 0 then i < 0 else i >= 0 && r[i] == s[e]
  }

  lemma SameExtCons(u: Slot, s: seq<Slot>, r: seq<Slot>)
    requires SameExt(s, r)
    ensures SameExt([u] + s, [u] + r)
    ensures !u.ptype.IsExtended() ==> SameExt(s, [u] + r)
  {
    ExtCons(u, s);
    ExtCons(u, r);
  }

  lemma {:induction false} ExtFill(s: seq<Slot>, last: int, hi: int)
    ensures SameExt(s, Fill(s, last, hi, false))
  {
    if s != [] {
      hide SameExt, ExtIndex;
      var u, rest := s[0], Fill(s[1..], s[0].geom.end, hi, false);
      ExtFill(s[1..], u.geom.end, hi);
      SameExtCons(u, s[1..], rest);
      assert [u] + s[1..] == s;
      if u.geom.start > last + 1 {
        var gap := FreeSlot(false, last + 1, u.geom.start - 1);
        SameExtCons(gap, s, [u] + rest);
        assert [gap] + [u] + rest == [gap] + ([u] + rest);
      }
    }
  }

  lemma ExtCons(u: Slot, rest: seq<Slot>)
    ensures ExtIndex([u] + rest)
        == if u.ptype.IsExtended() then 0 else if ExtIndex(rest) < 0 then -1 else ExtIndex(rest) + 1
  {
    assert ([u] + rest)[1..] == rest;
  }

  /** A sound table without placeholders is tiled by filling it. */
  lemma FilledIsTiled(t: Table)
    requires Sound(t) && t.length > 0
    ensures TiledTable(Filled(t))
  {
    hide ExtIndex, Tiled;
    FillTiles(t.prims, -1, t.length - 1, false);
    ExtFill(t.prims, -1, t.length - 1);
    if t.Ext().Some? {
      var e := t.Ext().value;
      FillTilesLogicals(t.logs, e);
      FillStarts(t.logs, e);
    }
  }

  lemma FillStarts(logs: seq<Slot>, e: Geom)
    requires Ordered(logs, e.start, e.end)
    ensures LogicalLo(Fill(logs, e.start, e.end, true), e) == LogicalLo(logs, e)
  {
  }
}
