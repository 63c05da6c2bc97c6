// mkpart's snapping of a requested region to nearby partition boundaries
// (parted.c).

module Snapping {
  import opened Common
  import opened Geometry
  import opened Layout
  import opened Nodes
  import opened Disks
  import opened Traversal

  datatype Move = Still | Up | Down

  /** The moves that are still allowed. */
  datatype Allow = Allow(up: bool, down: bool)

  const SECT_START := 0
  const SECT_END := -1

  /** The boundaries of part, as a start sector or as an end sector. */
  function Above(part: Geom, what: int): int {
    part.end + 1 + what
  }

  function Below(part: Geom, what: int): int {
    part.start + what
  }

  function Target(s: int, move: Move, part: Geom, what: int): int {
    match move
    case Still => s
    case Up => Above(part, what)
    case Down => Below(part, what)
  }

  /** snap. */
  method Snap(sector: int, newSector: int, range: Geom) returns (r: int, moved: bool)
    requires range.Has(sector)
    ensures moved <==> range.Has(newSector)
    ensures r == if moved then newSector else sector
  {
    if !range.Has(newSector) {
      return sector, false;
    }
    return newSector, true;
  }

  function Within(allow: Allow, range: Geom, part: Geom, what: int): Allow {
    Allow(allow.up && range.Has(Above(part, what)), allow.down && range.Has(Below(part, what)))
  }

  function Distance(s: int, x: int): int {
    if x < s then s - x else x - s
  }

  /** want is the nearest boundary among those allowed: a start sector goes
      down in a draw, an end sector up. */
  predicate IsPreferred(s: int, what: int, allow: Allow, part: Geom, want: Move) {
    match want
    case Still => !allow.up && !allow.down
    case Up => allow.up && (allow.down ==>
        if what == SECT_START then Distance(s, Above(part, what)) < Distance(s, Below(part, what))
        else Distance(s, Above(part, what)) <= Distance(s, Below(part, what)))
    case Down => allow.down && (allow.up ==>
        if what == SECT_START then Distance(s, Below(part, what)) <= Distance(s, Above(part, what))
        else Distance(s, Below(part, what)) < Distance(s, Above(part, what)))
  }

  lemma PreferredUnique(s: int, what: int, allow: Allow, part: Geom, want: Move, want': Move)
    requires IsPreferred(s, what, allow, part, want) && IsPreferred(s, what, allow, part, want')
    ensures want == want'
  {
  }

  /** prefer_snap.  A sector that has been snapped already may not move, and
      need not lie in part. */
  method PreferSnap(s: int, what: int, range: Geom, allow: Allow, part: Geom)
      returns (want: Move, left: Allow, dist: int)
    requires what == SECT_START || what == SECT_END
    requires allow.up || allow.down ==> part.Has(s)
    ensures left == Within(allow, range, part, what)
    ensures IsPreferred(s, what, left, part, want)
    ensures dist == Distance(s, Target(s, want, part, what)) >= 0
  {
    left := allow;
    if !allow.up && !allow.down {
      return Still, left, 0;
    }
    var upDist, downDist := -1, -1;
    if allow.up {
      var newSect := part.end + 1 + what;
      if range.Has(newSect) {
        upDist := newSect - s;
      } else {
        left := left.(up := false);
      }
    }
    if allow.down {
      var newSect := part.start + what;
      if range.Has(newSect) {
        downDist := s - newSect;
      } else {
        left := left.(down := false);
      }
    }
    want := Still;
    if left.up && left.down {
      if downDist < upDist || (downDist == upDist && what == SECT_START) {
        want := Down;
      } else if upDist < downDist || (downDist == upDist && what == SECT_END) {
        want := Up;
      } else {
        assert false;
      }
    } else if left.up {
      want := Up;
    } else if left.down {
      want := Down;
    }
    dist := if want == Down then downDist else if want == Up then upDist else 0;
  }

  /** A request: the two sectors, what they may become, and the nodes they lie in. */
  datatype Request = Request(start: int, end: int, startRange: Geom, endRange: Geom, startPart: Geom, endPart: Geom,
      same: bool) {
    predicate Valid() {
      && start <= end && startRange.Has(start) && endRange.Has(end)
      && startPart.Has(start) && endPart.Has(end)
      && (if same then startPart == endPart else startPart.end < endPart.start)
    }

    /** What is allowed at first, given what an old geometry has fixed. */
    function StartAllow(fixedStart: bool): Allow {
      Within(Allow(!fixedStart && !same, !fixedStart), startRange, startPart, SECT_START)
    }

    function EndAllow(fixedEnd: bool): Allow {
      Within(Allow(!fixedEnd, !fixedEnd && !same), endRange, endPart, SECT_END)
    }

    predicate Adjacent() {
      startPart.end + 1 == endPart.start
    }
  }

  /** What each end wants taken by itself; an end that is fixed stays. */
  ghost predicate Wants(q: Request, fixedStart: bool, fixedEnd: bool, startWant: Move, endWant: Move) {
    && IsPreferred(q.start, SECT_START, q.StartAllow(fixedStart), q.startPart, startWant)
    && IsPreferred(q.end, SECT_END, q.EndAllow(fixedEnd), q.endPart, endWant)
  }

  /** What the ends do: what they want, but when both want to cross the boundary
      between adjacent nodes, the farther one turns to what else it is allowed. */
  ghost predicate Settles(q: Request, startWant: Move, endWant: Move, startMove: Move, endMove: Move) {
    if q.Adjacent() && startWant == Up && endWant == Down then
      if Distance(q.end, q.endPart.start - 1) < Distance(q.start, q.startPart.end + 1) then
        endMove == Down && startMove == if q.StartAllow(false).down then Down else Still
      else
        startMove == Up && endMove == if q.EndAllow(false).up then Up else Still
    else
      startMove == startWant && endMove == endWant
  }

  /** Where the request ends up. */
  ghost predicate IsSnapped(q: Request, g: Geom) {
    exists sw, ew, sm, em :: Wants(q, false, false, sw, ew) && Settles(q, sw, ew, sm, em)
      && g == Geom(Target(q.start, sm, q.startPart, SECT_START), Target(q.end, em, q.endPart, SECT_END))
  }

  /** The boundaries an end may go to, or where it is if there are none. */
  function Choices(s: int, what: int, allow: Allow, part: Geom): set<int> {
    if !allow.up && !allow.down then {s}
    else (if allow.up then {Above(part, what)} else {}) + (if allow.down then {Below(part, what)} else {})
  }

  function Least(a: int, b: int): int {
    if a < b then a else b
  }

  /** The end that moves less never gives way: no choice for either end is nearer
      than the nearer of the two that are taken, and unless the nearest choices
      cross, each end takes its own. */
  lemma SnapBest(q: Request, g: Geom, s: int, e: int)
    requires q.Valid() && IsSnapped(q, g)
    requires s in Choices(q.start, SECT_START, q.StartAllow(false), q.startPart)
    requires e in Choices(q.end, SECT_END, q.EndAllow(false), q.endPart)
    ensures Least(Distance(q.start, g.start), Distance(q.end, g.end))
         <= Least(Distance(q.start, s), Distance(q.end, e))
    ensures Distance(q.start, g.start) <= Distance(q.start, s) || g.end < q.startPart.end + 1
    ensures Distance(q.end, g.end) <= Distance(q.end, e) || g.start > q.endPart.start - 1
  {
  }

  /** Which ends an old geometry fixes. */
  predicate FixesStart(q: Request, prior: Option<Geom>) {
    prior.Some? && q.startRange.Has(prior.value.start)
  }

  predicate FixesEnd(q: Request, prior: Option<Geom>) {
    prior.Some? && q.endRange.Has(prior.value.end)
  }

  /** The final assertion start <= end can only fail when the old geometry
      fixes one end, and then exactly when the other end, which goes to its own
      nearest boundary, lands on the wrong side of it. */
  ghost predicate StaysInOrder(q: Request, prior: Option<Geom>) {
    if FixesStart(q, prior) == FixesEnd(q, prior) then true
    else if FixesStart(q, prior) then
      forall ew :: IsPreferred(q.end, SECT_END, q.EndAllow(false), q.endPart, ew) ==>
        prior.value.start <= Target(q.end, ew, q.endPart, SECT_END)
    else
      forall sw :: IsPreferred(q.start, SECT_START, q.StartAllow(false), q.startPart, sw) ==>
        Target(q.start, sw, q.startPart, SECT_START) <= prior.value.end
  }

  /** The moves of the two ends.  Distances are never negative. */
  method ChooseMoves(q: Request, start: int, end: int, fixedStart: bool, fixedEnd: bool)
      returns (startMove: Move, endMove: Move)
    requires q.Valid() && (!fixedStart ==> start == q.start) && (!fixedEnd ==> end == q.end)
    ensures exists sw, ew :: Wants(q, fixedStart, fixedEnd, sw, ew) && Settles(q, sw, ew, startMove, endMove)
  {
    var startAllow, endAllow := Allow(!fixedStart, !fixedStart), Allow(!fixedEnd, !fixedEnd);
    var adjacent := q.startPart.end + 1 == q.endPart.start;
    if q.same {
      startAllow := startAllow.(up := false);
      endAllow := endAllow.(down := false);
    }
    var startDist, endDist;
    startMove, startAllow, startDist := PreferSnap(start, SECT_START, q.startRange, startAllow, q.startPart);
    endMove, endAllow, endDist := PreferSnap(end, SECT_END, q.endRange, endAllow, q.endPart);
    ghost var sw, ew := startMove, endMove;
    assert startDist >= 0 && endDist >= 0;
    if adjacent && startMove == Up && endMove == Down {
      if endDist < startDist {
        startAllow := startAllow.(up := false);
        startMove, startAllow, startDist := PreferSnap(start, SECT_START, q.startRange, startAllow, q.startPart);
        assert startDist >= 0;
      } else {
        endAllow := endAllow.(down := false);
        endMove, endAllow, endDist := PreferSnap(end, SECT_END, q.endRange, endAllow, q.endPart);
        assert endDist >= 0;
      }
    }
    assert Wants(q, fixedStart, fixedEnd, sw, ew) && Settles(q, sw, ew, startMove, endMove);
  }

  /** The ends stay in their ranges. */
  lemma MovesInRange(q: Request, fixedStart: bool, fixedEnd: bool, sw: Move, ew: Move, sm: Move, em: Move)
    requires q.Valid() && Wants(q, fixedStart, fixedEnd, sw, ew) && Settles(q, sw, ew, sm, em)
    ensures if fixedStart then sm == Still else q.startRange.Has(Target(q.start, sm, q.startPart, SECT_START))
    ensures if fixedEnd then em == Still else q.endRange.Has(Target(q.end, em, q.endPart, SECT_END))
    ensures fixedStart || fixedEnd ==> sm == sw && em == ew
  {
  }

  lemma MovesInOrder(q: Request, sw: Move, ew: Move, sm: Move, em: Move)
    requires q.Valid() && Wants(q, false, false, sw, ew) && Settles(q, sw, ew, sm, em)
    ensures Target(q.start, sm, q.startPart, SECT_START) <= Target(q.end, em, q.endPart, SECT_END)
  {
  }

  lemma OrderIff(q: Request, prior: Option<Geom>, sw: Move, ew: Move, sm: Move, em: Move, g: Geom)
    requires q.Valid() && (prior.Some? ==> prior.value.start <= prior.value.end)
    requires Wants(q, FixesStart(q, prior), FixesEnd(q, prior), sw, ew) && Settles(q, sw, ew, sm, em)
    requires g.start == if FixesStart(q, prior) then prior.value.start else Target(q.start, sm, q.startPart, SECT_START)
    requires g.end == if FixesEnd(q, prior) then prior.value.end else Target(q.end, em, q.endPart, SECT_END)
    ensures g.start <= g.end <==> StaysInOrder(q, prior)
  {
    MovesInRange(q, FixesStart(q, prior), FixesEnd(q, prior), sw, ew, sm, em);
    if !FixesStart(q, prior) && !FixesEnd(q, prior) {
      MovesInOrder(q, sw, ew, sm, em);
    }
    hide IsPreferred;
    forall w | IsPreferred(q.end, SECT_END, q.EndAllow(false), q.endPart, w) && !FixesEnd(q, prior)
      ensures w == ew
    {
      PreferredUnique(q.end, SECT_END, q.EndAllow(false), q.endPart, w, ew);
    }
    forall w | IsPreferred(q.start, SECT_START, q.StartAllow(false), q.startPart, w) && !FixesStart(q, prior)
      ensures w == sw
    {
      PreferredUnique(q.start, SECT_START, q.StartAllow(false), q.startPart, w, sw);
    }
  }

  /** snap_to_boundaries, once the two nodes are known; ordered is whether its
      last assertion holds, the others always do. */
  method SnapRegion(q: Request, prior: Option<Geom>) returns (g: Geom, ordered: bool)
    requires q.Valid() && (prior.Some? ==> prior.value.start <= prior.value.end)
    ensures q.startRange.Has(g.start) && q.endRange.Has(g.end) && ordered == (g.start <= g.end)
    ensures ordered <==> StaysInOrder(q, prior)
    ensures !FixesStart(q, prior) && !FixesEnd(q, prior) ==> ordered && IsSnapped(q, g)
    ensures FixesStart(q, prior) ==> g.start == prior.value.start
    ensures FixesEnd(q, prior) ==> g.end == prior.value.end
  {
    hide Wants, Settles, StaysInOrder;
    var start, end := q.start, q.end;
    var fixedStart, fixedEnd := false, false;
    if prior.Some? {
      start, fixedStart := Snap(start, prior.value.start, q.startRange);
      end, fixedEnd := Snap(end, prior.value.end, q.endRange);
    }
    var sm, em := ChooseMoves(q, start, end, fixedStart, fixedEnd);
    ghost var sw, ew :| Wants(q, fixedStart, fixedEnd, sw, ew) && Settles(q, sw, ew, sm, em);
    start := if sm == Down then q.startPart.start else if sm == Up then q.startPart.end + 1 else start;
    end := if em == Down then q.endPart.start - 1 else if em == Up then q.endPart.end else end;
    g := Geom(start, end);
    ordered := start <= end;
    MovesInRange(q, fixedStart, fixedEnd, sw, ew, sm, em);
    if !fixedStart && !fixedEnd {
      MovesInOrder(q, sw, ew, sm, em);
    }
    OrderIff(q, prior, sw, ew, sm, em, g);
    assert q.startRange.Has(start) && q.endRange.Has(end);
  }

  /** An old geometry of which only the start is in range can put the start
      behind the end. */
  lemma OldGeometryCrosses()
    ensures var q := Request(5, 25, Geom(0, 30), Geom(19, 25), Geom(0, 9), Geom(20, 29), false);
      q.Valid() && !StaysInOrder(q, Some(Geom(28, 99)))
  {
    var q := Request(5, 25, Geom(0, 30), Geom(19, 25), Geom(0, 9), Geom(20, 29), false);
    assert IsPreferred(q.end, SECT_END, q.EndAllow(false), q.endPart, Down);
  }

  /** On a tiled disk, different nodes with start <= end in them are apart. */
  lemma NodesApart(d: Disk, p: Partition, q: Partition, start: int, end: int)
    requires d.Shape() && TiledTable(d.TableOf()) && 0 <= start <= end < d.length
    requires p in Dfs(d) && q in Dfs(d) && p != q && Holds(p, start) && Holds(q, end)
    ensures p.geom.end < q.geom.start
  {
    hide Disk.Shape, TiledTable, Dfs;
    if p.geom.end >= q.geom.start {
      var x := if p.geom.start > q.geom.start then p.geom.start else q.geom.start;
      x := if x < 0 then 0 else x;
      assert Holds(p, x) && Holds(q, x);
      var h := SectorHolder(d, x);
    }
  }

  /** Looking something up changes nothing that lookups depend on. */
  twostate lemma LookedUp(d: Disk)
    requires old(d.Shape()) && d.prims == old(d.prims) && d.logs == old(d.logs) && d.ext == old(d.ext)
        && d.partList == old(d.partList)
    requires forall p | p in old(d.prims) ::
        p.prev == old(p.prev) && p.next == old(p.next) && p.partList == old(p.partList) && p.geom == old(p.geom)
    requires forall p | p in old(d.logs) ::
        p.prev == old(p.prev) && p.next == old(p.next) && p.partList == old(p.partList) && p.geom == old(p.geom)
    ensures d.Shape() && d.TableOf() == old(d.TableOf()) && Dfs(d) == old(Dfs(d))
    ensures forall x: int :: IsBlindSpot(d, x) == old(IsBlindSpot(d, x))
  {
    ShapeKept(d);
    hide Disk.Detached, Links, Slots;
    SlotsKept(d.prims);
    SlotsKept(d.logs);
  }

  /** snap_to_boundaries.  The nodes are looked up without a check, so it comes
      to a result exactly when neither end is the one sector without a node. */
  method SnapToBoundaries(d: Disk, g: Geom, prior: Option<Geom>, startRange: Geom, endRange: Geom)
      returns (r: Option<Geom>, ordered: bool, ghost q: Request, startPart: Partition?, endPart: Partition?)
    requires d.Shape() && TiledTable(d.TableOf()) && 0 <= g.start <= g.end < d.length
    requires startRange.Has(g.start) && endRange.Has(g.end) && (prior.Some? ==> prior.value.start <= prior.value.end)
    ensures r.None? <==> IsBlindSpot(d, g.start) || IsBlindSpot(d, g.end)
    ensures r.Some? ==>
      && startPart in Dfs(d) && endPart in Dfs(d) && Holds(startPart, g.start) && Holds(endPart, g.end)
      && q.startPart == startPart.geom && q.endPart == endPart.geom && (q.same <==> startPart == endPart)
    ensures r.Some? ==>
      && q.Valid() && q.start == g.start && q.end == g.end && q.startRange == startRange && q.endRange == endRange
      && startRange.Has(r.value.start) && endRange.Has(r.value.end)
      && ordered == (r.value.start <= r.value.end) && (ordered <==> StaysInOrder(q, prior))
      && (prior.None? ==> ordered && IsSnapped(q, r.value))
  {
    hide Disk.Shape, TiledTable, Dfs, IsBlindSpot, IsSnapped, StaysInOrder;
    q := Request(g.start, g.end, startRange, endRange, g, g, true);
    ordered, r, endPart := false, None, null;
    startPart := GetPartitionBySector(d, g.start);
    LookedUp(d);
    endPart := GetPartitionBySector(d, g.end);
    LookedUp(d);
    if startPart == null || endPart == null {
      return;
    }
    if startPart != endPart {
      NodesApart(d, startPart, endPart, g.start, g.end);
    }
    var request := Request(g.start, g.end, startRange, endRange, startPart.geom, endPart.geom, startPart == endPart);
    q := request;
    var s;
    s, ordered := SnapRegion(request, prior);
    LookedUp(d);
    r := Some(s);
  }
}
