// Free-space placeholders: stripping them and allocating them again.

module FreeSpace {
  import opened Common
  import opened Geometry
  import opened Layout
  import opened Nodes
  import opened Disks
  import opened Traversal

  /** Unlinking what a filter leaves out anyway. */
  lemma FilterMinus(q: Partition -> bool, s: seq<Partition>, x: Partition)
    requires x in s && !q(x)
    ensures Filter(q, Minus(s, x)) == Filter(q, s)
  {
    var k := Index(s, x);
    assert s == s[..k] + ([x] + s[k + 1..]);
    FilterConcat(q, s[..k], [x] + s[k + 1..]);
    FilterConcat(q, [x], s[k + 1..]);
    FilterConcat(q, s[..k], s[k + 1..]);
  }

  lemma MinusCons(s: seq<Partition>, x: Partition)
    requires s != [] && x in s
    ensures Minus(s, x) == if s[0] == x then s[1..] else [s[0]] + Minus(s[1..], x)
  {
  }

  lemma FlattenCons(prims: seq<Partition>, logs: seq<Partition>, ext: Partition?)
    requires prims != []
    ensures Flatten(prims, logs, ext)
         == [prims[0]] + (if prims[0] == ext then logs + prims[1..] else Flatten(prims[1..], logs, ext))
  {
  }

  /** Unlinking a node takes it out of the traversal and changes nothing else. */
  lemma {:induction false} FlattenMinus(prims: seq<Partition>, logs: seq<Partition>, ext: Partition?, x: Partition)
    requires x != ext && x in prims && x !in logs
    ensures Flatten(Minus(prims, x), logs, ext) == Minus(Flatten(prims, logs, ext), x)
  {
    var rest := prims[1..];
    MinusCons(prims, x);
    FlattenCons(prims, logs, ext);
    MinusCons(Flatten(prims, logs, ext), x);
    if prims[0] != x {
      FlattenCons([prims[0]] + Minus(rest, x), logs, ext);
      if prims[0] == ext {
        MinusConcat(logs, rest, x);
      } else {
        FlattenMinus(rest, logs, ext, x);
      }
    }
  }

  lemma {:induction false} FlattenMinusLogical(prims: seq<Partition>, logs: seq<Partition>, ext: Partition?,
      x: Partition)
    requires x !in prims && x in logs && ext in prims
    ensures Flatten(prims, Minus(logs, x), ext) == Minus(Flatten(prims, logs, ext), x)
  {
    FlattenCons(prims, logs, ext);
    FlattenCons(prims, Minus(logs, x), ext);
    MinusCons(Flatten(prims, logs, ext), x);
    if prims[0] == ext {
      MinusConcat(logs, prims[1..], x);
    } else {
      FlattenMinusLogical(prims[1..], logs, ext, x);
    }
  }

  lemma {:induction false} MinusConcat(a: seq<Partition>, b: seq<Partition>, x: Partition)
    requires x in a || x in b
    ensures Minus(a + b, x) == if x in a then Minus(a, x) + b else a + Minus(b, x)
  {
    hide Minus;
    if a == [] {
      assert a + b == b;
    } else {
      MinusCons(a + b, x);
      assert (a + b)[1..] == a[1..] + b;
      if x in a {
        MinusCons(a, x);
      }
      if a[0] != x {
        MinusConcat(a[1..], b, x);
      }
    }
  }

  lemma MinusAt(s: seq<Partition>, k: nat)
    requires Distinct(s) && k < |s|
    ensures Minus(s, s[k]) == s[..k] + s[k + 1..]
  {
  }

  /** What unlinking part did, seen from the traversal. */
  lemma DfsMinus(prims: seq<Partition>, logs: seq<Partition>, ext: Partition?, i: nat)
    requires Distinct(Flatten(prims, logs, ext)) && i < |Flatten(prims, logs, ext)|
    requires forall p | p in prims :: !p.ptype.logical
    requires forall p | p in logs :: p.ptype.logical
    requires (ext in prims || logs == []) && Flatten(prims, logs, ext)[i] != ext
    ensures var D := Flatten(prims, logs, ext);
      var x := D[i];
      && (x.ptype.logical ==> x in logs && Flatten(prims, Minus(logs, x), ext) == D[..i] + D[i + 1..])
      && (!x.ptype.logical ==> x in prims && Flatten(Minus(prims, x), logs, ext) == D[..i] + D[i + 1..])
  {
    var D := Flatten(prims, logs, ext);
    var x := D[i];
    assert x in D;
    assert x in prims || x in logs;
    MinusAt(D, i);
    if x in logs {
      FlattenMinusLogical(prims, logs, ext, x);
    } else {
      FlattenMinus(prims, logs, ext, x);
    }
  }

  lemma DfsMinusIn(d: Disk, i: nat)
    requires d.Shape() && i < |Dfs(d)| && Dfs(d)[i] != d.ext
    ensures var x := Dfs(d)[i];
      && x in d.List(x.ptype.logical)
      && Flatten(if x.ptype.logical then d.prims else Minus(d.prims, x),
                 if x.ptype.logical then Minus(d.logs, x) else d.logs, d.ext)
         == Dfs(d)[..i] + Dfs(d)[i + 1..]
  {
    DfsMeetsAll(d);
    hide Flatten, Index, Filter, Links;
    DfsMinus(d.prims, d.logs, d.ext, i);
  }

  /** _disk_remove_freespace: only the placeholders go, and no geometry changes. */
  method RemoveFreespace(d: Disk)
    requires d.Shape()
    modifies d`partList, d`prims, d`logs, d.Nodes()`prev, d.Nodes()`next, d.Owner()`partList
    ensures d.Shape()
    ensures d.prims == Filter(IsUsedNode, old(d.prims)) && d.logs == Filter(IsUsedNode, old(d.logs))
    ensures d.Nodes() <= old(d.Nodes())
  {
    hide Disk.Shape, Dfs, Filter;
    var walk := NextPartition(d, null, -1);
    ghost var i := 0;
    while walk != null
      invariant d.Shape() && d.ext == old(d.ext)
      invariant i <= |Dfs(d)| && walk == if i < |Dfs(d)| then Dfs(d)[i] else null
      invariant forall j :: 0 <= j < i ==> IsUsedNode(Dfs(d)[j])
      invariant Filter(IsUsedNode, d.prims) == Filter(IsUsedNode, old(d.prims))
      invariant Filter(IsUsedNode, d.logs) == Filter(IsUsedNode, old(d.logs))
      invariant d.Nodes() <= old(d.Nodes())
      decreases |Dfs(d)| - i
    {
      var next := NextPartition(d, walk, i);
      if walk.ptype.free {
        UnlinkFree(d, walk, i);
      } else {
        i := i + 1;
      }
      walk := next;
    }
    DfsMembers(d);
    FilterAll(IsUsedNode, d.prims);
    FilterAll(IsUsedNode, d.logs);
  }

  /** One step of the sweep: the placeholder at position i is unlinked. */
  method UnlinkFree(d: Disk, walk: Partition, ghost i: nat)
    requires d.Shape() && i < |Dfs(d)| && Dfs(d)[i] == walk && walk.ptype.free
    modifies d`partList, d`prims, d`logs, d.Nodes()`prev, d.Nodes()`next, d.Owner()`partList
    ensures d.Shape()
    ensures Dfs(d) == old(Dfs(d))[..i] + old(Dfs(d))[i + 1..]
    ensures Filter(IsUsedNode, d.prims) == Filter(IsUsedNode, old(d.prims))
    ensures Filter(IsUsedNode, d.logs) == Filter(IsUsedNode, old(d.logs))
    ensures d.Nodes() <= old(d.Nodes())
  {
    hide Links, Flatten, Index, Filter;
    DfsMinusIn(d, i);
    FilterMinus(IsUsedNode, d.List(walk.ptype.logical), walk);
    RawRemove(d, walk);
  }

  // ----- Allocation -----

  /** How far allocation has come: the first k nodes of s are passed, done is
      what they have become, and the rest is still to be filled from last on. */
  ghost predicate Filling(now: seq<Partition>, s: seq<Partition>, done: seq<Partition>, k: nat,
                          from: int, last: int, hi: int, logical: bool)
    reads now`geom, s`geom, done`geom
  {
    && k <= |s| && now == done + s[k..]
    && Filter(IsUsedNode, done) == s[..k]
    && (if k == 0 then done == [] else done != [] && done[|done| - 1] == s[k - 1])
    && Slots(done) + Fill(Slots(s[k..]), last, hi, logical) == Fill(Slots(s), from, hi, logical)
  }

  lemma FillingStart(s: seq<Partition>, from: int, hi: int, logical: bool)
    ensures Filling(s, s, [], 0, from, from, hi, logical)
  {
    assert s[0..] == s;
  }

  /** gap is the placeholder for first..last, if there are such sectors. */
  ghost predicate IsGap(gap: seq<Partition>, logical: bool, first: int, last: int)
    reads gap`geom
  {
    if first <= last then |gap| == 1 && SlotOf(gap[0]) == FreeSlot(logical, first, last) else gap == []
  }

  /** Passing one node, with the placeholder gap in front of it if there is a gap. */
  lemma FillingStep(s: seq<Partition>, done: seq<Partition>, k: nat, gap: seq<Partition>,
                    from: int, last: int, hi: int, logical: bool)
    requires k < |s| && IsUsedNode(s[k])
    requires Filling(done + s[k..], s, done, k, from, last, hi, logical)
    requires IsGap(gap, logical, last + 1, s[k].geom.start - 1)
    ensures Filling(done + gap + s[k..], s, done + gap + [s[k]], k + 1, from, s[k].geom.end, hi, logical)
  {
    hide Fill, Filter, Slots, IsGap;
    var x, rest := s[k], s[k + 1..];
    assert s[k..] == [x] + rest && s[..k + 1] == s[..k] + [x];
    assert done + gap + s[k..] == done + gap + [x] + rest;
    UsedBehind(done, gap, x, last, logical);
    FillGap(x, rest, gap, last, hi, logical);
    SlotsConcat(done, gap + [x]);
    assert done + (gap + [x]) == done + gap + [x];
    SlotsAdd(Slots(done), Slots(gap + [x]), Fill(Slots(rest), x.geom.end, hi, logical));
  }

  lemma UsedBehind(done: seq<Partition>, gap: seq<Partition>, x: Partition, last: int, logical: bool)
    requires IsUsedNode(x) && IsGap(gap, logical, last + 1, x.geom.start - 1)
    ensures Filter(IsUsedNode, done + gap + [x]) == Filter(IsUsedNode, done) + [x]
  {
    FilterNone(IsUsedNode, gap);
    hide Filter;
    FilterSnoc(IsUsedNode, done + gap, x);
    FilterConcat(IsUsedNode, done, gap);
  }

  lemma SlotsAdd(a: seq<Slot>, b: seq<Slot>, c: seq<Slot>)
    ensures a + b + c == a + (b + c)
  {
  }

  /** The slots of a gap, the node behind it, and what they add to filling. */
  lemma FillGap(x: Partition, rest: seq<Partition>, gap: seq<Partition>, last: int, hi: int, logical: bool)
    requires IsGap(gap, logical, last + 1, x.geom.start - 1)
    ensures Slots(gap + [x]) + Fill(Slots(rest), x.geom.end, hi, logical)
         == Fill(Slots([x] + rest), last, hi, logical)
  {
    hide Fill, Slots;
    assert Slots([x] + rest) == [SlotOf(x)] + Slots(rest);
    assert Slots(gap + [x]) == Slots(gap) + [SlotOf(x)];
    assert Slots(gap) == if last + 1 <= x.geom.start - 1 then [FreeSlot(logical, last + 1, x.geom.start - 1)] else [];
    FillStep(SlotOf(x), Slots(rest), last, hi, logical);
  }

  /** At the end of the list: the placeholder after the last node, if any. */
  lemma FillingEnd(s: seq<Partition>, done: seq<Partition>, gap: seq<Partition>,
                   from: int, last: int, hi: int, logical: bool)
    requires Filling(done, s, done, |s|, from, last, hi, logical)
    requires IsGap(gap, logical, last + 1, hi)
    ensures Filter(IsUsedNode, done + gap) == s
    ensures Slots(done + gap) == Fill(Slots(s), from, hi, logical)
  {
    FillEmpty(last, hi, logical);
    hide Fill, Filter, Slots;
    FilterConcat(IsUsedNode, done, gap);
    FilterNone(IsUsedNode, gap);
    assert s[..|s|] == s && Slots(s[|s|..]) == [];
    assert Slots(done + gap) == Slots(done) + Slots(gap);
    assert Slots(gap) == Fill([], last, hi, logical);
  }

  lemma FillEmpty(last: int, hi: int, logical: bool)
    ensures Fill([], last, hi, logical) == if last < hi then [FreeSlot(logical, last + 1, hi)] else []
  {
  }

  /** The placeholder in front of walk, the logical at position k. */
  method LogicalGap(d: Disk, walk: Partition, lastEnd: int, ghost k: nat) returns (ghost gap: seq<Partition>)
    requires d.Shape() && k < |d.logs| && d.logs[k] == walk
    modifies d`logs, d.logs`prev, d.logs`next, d.Owner()`partList
    ensures d.Shape() && d.logs == old(d.logs)[..k] + gap + old(d.logs)[k..]
    ensures IsGap(gap, true, lastEnd + 1, walk.geom.start - 1) && forall p | p in gap :: fresh(p)
    ensures walk.next == if k + 1 < |old(d.logs)| then old(d.logs)[k + 1] else null
  {
    hide Index, PrimaryNodes;
    gap := [];
    IndexAt(d.logs, k);
    ghost var s := d.logs;
    if walk.geom.start > lastEnd + 1 {
      var free := new Partition(PartType(true, false, true, false), Geom(lastEnd + 1, walk.geom.start - 1));
      InsertLogicalBefore(d, walk, free);
      gap := [free];
      assert d.logs[k + 1] == walk;
    } else {
      assert s == s[..k] + [] + s[k..];
    }
  }

  /** The placeholder behind last, the final logical. */
  method LogicalTail(d: Disk, last: Partition?, lastEnd: int, hi: int) returns (ghost gap: seq<Partition>)
    requires d.Shape() && d.ext != null
    requires last == if d.logs == [] then null else d.logs[|d.logs| - 1]
    modifies d`logs, d.logs`prev, d.logs`next, d.Owner()`partList
    ensures d.Shape() && d.logs == old(d.logs) + gap
    ensures IsGap(gap, true, lastEnd + 1, hi) && forall p | p in gap :: fresh(p)
  {
    hide Links, Index, PrimaryNodes;
    gap := [];
    if lastEnd < hi {
      var free := new Partition(PartType(true, false, true, false), Geom(lastEnd + 1, hi));
      if last != null {
        IndexAt(d.logs, |d.logs| - 1);
        InsertLogicalAfter(d, last, free);
      } else {
        InsertOnlyLogical(d, free);
      }
      gap := [free];
    }
  }

  /** The loop state of an allocation sweep: walk is the next node of s to
      pass, last the one passed before it; every node linked so far is an old
      one or one of those just made. */
  ghost predicate Sweep(now: seq<Partition>, s: seq<Partition>, done: seq<Partition>, k: nat,
                        from: int, lastEnd: int, hi: int, logical: bool, walk: Partition?, last: Partition?)
    reads now`geom, s`geom, done`geom
  {
    && Filling(now, s, done, k, from, lastEnd, hi, logical)
    && walk == (if k == |s| then null else s[k])
    && last == (if done == [] then null else done[|done| - 1])
    && (walk != null ==> |done| < |now| && now[|done|] == walk)
    && (walk == null ==> now == done)
  }

  lemma SweepStart(s: seq<Partition>, from: int, hi: int, logical: bool)
    ensures Sweep(s, s, [], 0, from, from, hi, logical, Head(s), null)
  {
    FillingStart(s, from, hi, logical);
  }

  lemma SweepStep(now: seq<Partition>, s: seq<Partition>, done: seq<Partition>, k: nat, gap: seq<Partition>,
                  from: int, lastEnd: int, hi: int, logical: bool, walk: Partition, last: Partition?)
    requires Sweep(now, s, done, k, from, lastEnd, hi, logical, walk, last)
    requires forall p | p in s :: IsUsedNode(p)
    requires IsGap(gap, logical, lastEnd + 1, walk.geom.start - 1)
    ensures Sweep(now[..|done|] + gap + now[|done|..], s, done + gap + [walk], k + 1, from, walk.geom.end, hi, logical,
                  if |done| + 1 < |now| then now[|done| + 1] else null, walk)
  {
    FillingStep(s, done, k, gap, from, lastEnd, hi, logical);
    hide Filling;
    assert now[..|done|] == done && now[|done|..] == s[k..];
  }

  lemma SweepEnd(now: seq<Partition>, s: seq<Partition>, done: seq<Partition>, k: nat, gap: seq<Partition>,
                 from: int, lastEnd: int, hi: int, logical: bool, last: Partition?)
    requires Sweep(now, s, done, k, from, lastEnd, hi, logical, null, last)
    requires IsGap(gap, logical, lastEnd + 1, hi)
    ensures Filter(IsUsedNode, now + gap) == s
    ensures Slots(now + gap) == Fill(Slots(s), from, hi, logical)
  {
    FillingEnd(s, done, gap, from, lastEnd, hi, logical);
  }

  /** Every node of the list is an old one or one of those just made. */
  ghost predicate OldOrMade(now: seq<Partition>, s: seq<Partition>, made: set<Partition>) {
    forall i | 0 <= i < |now| :: now[i] in s || now[i] in made
  }

  lemma OldOrMadeStep(now: seq<Partition>, k: nat, gap: seq<Partition>, s: seq<Partition>, made: set<Partition>)
    requires OldOrMade(now, s, made) && k <= |now|
    ensures OldOrMade(now[..k] + gap + now[k..], s, made + set p | p in gap)
  {
    var r := now[..k] + gap + now[k..];
    assert forall i | 0 <= i < |r| ::
      r[i] == if i < k then now[i] else if i < k + |gap| then gap[i - k] else now[i - |gap|];
  }

  lemma OldOrMadeEnd(now: seq<Partition>, gap: seq<Partition>, s: seq<Partition>, made: set<Partition>)
    requires OldOrMade(now, s, made)
    ensures OldOrMade(now + gap, s, made + set p | p in gap)
  {
  }

  lemma OldOrMadeSelf(s: seq<Partition>)
    ensures OldOrMade(s, s, {})
  {
  }

  lemma ShapeFacts(d: Disk)
    requires d.Shape()
    ensures d.PrimsShape() && d.partList == Head(d.prims)
    ensures d.ext != null ==> d.ext in d.prims && d.ext.partList == Head(d.logs)
    ensures d.ext == null ==> d.logs == []
  {
  }

  /** One step of the sweep over the logical list. */
  method PassLogical(d: Disk, walk: Partition, lastEnd: int, ghost last: Partition?, ghost s: seq<Partition>,
                     ghost done: seq<Partition>, ghost k: nat, ghost hi: int, ghost from: int,
                         ghost made: set<Partition>)
      returns (ghost done': seq<Partition>, ghost made': set<Partition>)
    requires d.Shape() && forall p | p in s :: IsUsedNode(p)
    requires Sweep(d.logs, s, done, k, from, lastEnd, hi, true, walk, last)
    requires OldOrMade(d.logs, s, made)
    modifies d`logs, d.logs`prev, d.logs`next, d.Owner()`partList
    ensures d.Shape()
    ensures Sweep(d.logs, s, done', k + 1, from, walk.geom.end, hi, true, walk.next, walk)
    ensures OldOrMade(d.logs, s, made') && fresh(made' - made)
  {
    hide Disk.Shape, Filling, Fill, Filter, Slots;
    ghost var now := d.logs;
    ghost var gap := LogicalGap(d, walk, lastEnd, |done|);
    SweepStep(now, s, done, k, gap, from, lastEnd, hi, true, walk, last);
    OldOrMadeStep(now, |done|, gap, s, made);
    done', made' := done + gap + [walk], made + set p | p in gap;
  }

  lemma SweepBounds(now: seq<Partition>, s: seq<Partition>, done: seq<Partition>, k: nat,
                    from: int, lastEnd: int, hi: int, logical: bool, walk: Partition?, last: Partition?)
    requires Sweep(now, s, done, k, from, lastEnd, hi, logical, walk, last)
    ensures k <= |s|
    ensures walk != null ==> k < |s|
    ensures walk == null ==> last == if now == [] then null else now[|now| - 1]
  {
  }

  /** The end of the sweep over the logical list. */
  method FinishLogicals(d: Disk, last: Partition?, lastEnd: int, hi: int, ghost s: seq<Partition>,
                        ghost done: seq<Partition>, ghost k: nat, ghost from: int, ghost made: set<Partition>)
      returns (ghost made': set<Partition>)
    requires d.Shape() && d.ext != null && d.ext.geom == Geom(from, hi)
    requires Sweep(d.logs, s, done, k, from, lastEnd, hi, true, null, last)
    requires OldOrMade(d.logs, s, made)
    modifies d`logs, d.logs`prev, d.logs`next, d.Owner()`partList
    ensures d.Shape()
    ensures Filter(IsUsedNode, d.logs) == s
    ensures Slots(d.logs) == Fill(Slots(s), from, hi, true)
    ensures OldOrMade(d.logs, s, made') && fresh(made' - made)
  {
    hide Disk.Shape, Filling, Fill, Filter, Slots;
    ghost var now := d.logs;
    SweepBounds(now, s, done, k, from, lastEnd, hi, true, null, last);
    ghost var gap := LogicalTail(d, last, lastEnd, hi);
    SweepEnd(now, s, done, k, gap, from, lastEnd, hi, true, last);
    OldOrMadeEnd(now, gap, s, made);
    made' := made + set p | p in gap;
  }

  /** _alloc_extended_freespace. */
  method AllocExtendedFreespace(d: Disk) returns (ghost made: set<Partition>)
    requires d.Shape() && forall p | p in d.logs :: IsUsedNode(p)
    modifies d`logs, d.logs`prev, d.logs`next, d.Owner()`partList
    ensures d.Shape()
    ensures Filter(IsUsedNode, d.logs) == old(d.logs)
    ensures fresh(made) && OldOrMade(d.logs, old(d.logs), made)
    ensures d.ext != null ==>
      Slots(d.logs) == Fill(Slots(old(d.logs)), d.ext.geom.start, d.ext.geom.end, true)
  {
    hide Disk.Shape, Disk.Detached, Sweep, Fill, Filter, Slots;
    ShapeFacts(d);
    made := {};
    OldOrMadeSelf(d.logs);
    var e := ExtendedPartition(d);
    if e == null {
      FilterAll(IsUsedNode, d.logs);
      return;
    }
    ghost var s, done, k := d.logs, [], 0;
    var lastEnd := e.geom.start;
    var last: Partition? := null;
    var walk := e.partList;
    SweepStart(s, lastEnd, e.geom.end, true);
    while walk != null
      invariant d.Shape() && d.ext == e
      invariant Sweep(d.logs, s, done, k, e.geom.start, lastEnd, e.geom.end, true, walk, last)
      invariant fresh(made) && OldOrMade(d.logs, s, made)
      decreases |s| - k
    {
      SweepBounds(d.logs, s, done, k, e.geom.start, lastEnd, e.geom.end, true, walk, last);
      done, made := PassLogical(d, walk, lastEnd, last, s, done, k, e.geom.end, e.geom.start, made);
      k := k + 1;
      last := walk;
      lastEnd := last.geom.end;
      walk := walk.next;
    }
    made := FinishLogicals(d, last, lastEnd, e.geom.end, s, done, k, e.geom.start, made);
  }

  /** The placeholder in front of walk, the primary at position k. */
  method PrimaryGap(d: Disk, walk: Partition, lastEnd: int, ghost k: nat) returns (ghost gap: seq<Partition>)
    requires d.Shape() && k < |d.prims| && d.prims[k] == walk
    modifies d`partList, d`prims, d`ext, d.prims`prev, d.prims`next
    ensures d.Shape() && d.ext == old(d.ext) && d.logs == old(d.logs)
        && d.prims == old(d.prims)[..k] + gap + old(d.prims)[k..]
    ensures IsGap(gap, false, lastEnd + 1, walk.geom.start - 1) && forall p | p in gap :: fresh(p)
    ensures walk.next == if k + 1 < |old(d.prims)| then old(d.prims)[k + 1] else null
  {
    hide Index, LogicalNodes;
    gap := [];
    IndexAt(d.prims, k);
    ghost var s := d.prims;
    if walk.geom.start > lastEnd + 1 {
      var free := new Partition(PartType(false, false, true, false), Geom(lastEnd + 1, walk.geom.start - 1));
      InsertPrimaryBefore(d, walk, free);
      gap := [free];
      assert d.prims[k + 1] == walk;
    } else {
      assert s == s[..k] + [] + s[k..];
    }
  }

  /** The placeholder behind last, the final primary. */
  method PrimaryTail(d: Disk, last: Partition?, lastEnd: int, hi: int) returns (ghost gap: seq<Partition>)
    requires d.Shape()
    requires last == if d.prims == [] then null else d.prims[|d.prims| - 1]
    modifies d`partList, d`prims, d`ext, d.prims`prev, d.prims`next
    ensures d.Shape() && d.ext == old(d.ext) && d.logs == old(d.logs) && d.prims == old(d.prims) + gap
    ensures IsGap(gap, false, lastEnd + 1, hi) && forall p | p in gap :: fresh(p)
  {
    gap := [];
    if lastEnd < hi {
      hide Disk.Shape;
      var free := new Partition(PartType(false, false, true, false), Geom(lastEnd + 1, hi));
      ShapeKept(d);
      AppendPrimary(d, last, free);
      gap := [free];
    }
  }

  /** The placeholder free behind the last node, or on its own. */
  method AppendPrimary(d: Disk, last: Partition?, free: Partition)
    requires d.Shape() && Linkable(d, free) && !free.ptype.logical && !free.ptype.IsExtended()
    requires free.prev == null && free.next == null && free.partList == null
    requires last == if d.prims == [] then null else d.prims[|d.prims| - 1]
    modifies d`partList, d`prims, d`ext, d.prims`prev, d.prims`next, free`prev, free`next
    ensures d.Shape() && d.ext == old(d.ext) && d.logs == old(d.logs) && d.prims == old(d.prims) + [free]
  {
    hide Links, Index, LogicalNodes, PrimaryNodes;
    if last != null {
      IndexAt(d.prims, |d.prims| - 1);
      InsertPrimaryAfter(d, last, free);
    } else {
      InsertOnlyPrimary(d, free);
    }
  }

  /** One step of the sweep over the primary list. */
  method PassPrimary(d: Disk, walk: Partition, lastEnd: int, ghost last: Partition?, ghost s: seq<Partition>,
                     ghost done: seq<Partition>, ghost k: nat, ghost hi: int, ghost from: int,
                         ghost made: set<Partition>)
      returns (ghost done': seq<Partition>, ghost made': set<Partition>)
    requires d.Shape() && forall p | p in s :: IsUsedNode(p)
    requires Sweep(d.prims, s, done, k, from, lastEnd, hi, false, walk, last)
    requires OldOrMade(d.prims, s, made)
    modifies d`partList, d`prims, d`ext, d.prims`prev, d.prims`next
    ensures d.Shape() && d.ext == old(d.ext) && d.logs == old(d.logs)
    ensures Sweep(d.prims, s, done', k + 1, from, walk.geom.end, hi, false, walk.next, walk)
    ensures OldOrMade(d.prims, s, made') && fresh(made' - made)
  {
    hide Disk.Shape, Filling, Fill, Filter, Slots;
    ghost var now := d.prims;
    ghost var gap := PrimaryGap(d, walk, lastEnd, |done|);
    SweepStep(now, s, done, k, gap, from, lastEnd, hi, false, walk, last);
    OldOrMadeStep(now, |done|, gap, s, made);
    done', made' := done + gap + [walk], made + set p | p in gap;
  }

  /** The end of the sweep over the primary list. */
  method FinishPrimaries(d: Disk, last: Partition?, lastEnd: int, hi: int, ghost s: seq<Partition>,
                        ghost done: seq<Partition>, ghost k: nat, ghost from: int, ghost made: set<Partition>)
      returns (ghost made': set<Partition>)
    requires d.Shape()
    requires Sweep(d.prims, s, done, k, from, lastEnd, hi, false, null, last)
    requires OldOrMade(d.prims, s, made)
    modifies d`partList, d`prims, d`ext, d.prims`prev, d.prims`next
    ensures d.Shape() && d.ext == old(d.ext) && d.logs == old(d.logs)
    ensures Filter(IsUsedNode, d.prims) == s
    ensures Slots(d.prims) == Fill(Slots(s), from, hi, false)
    ensures OldOrMade(d.prims, s, made') && fresh(made' - made)
  {
    hide Disk.Shape, Filling, Fill, Filter, Slots;
    ghost var now := d.prims;
    SweepBounds(now, s, done, k, from, lastEnd, hi, false, null, last);
    ghost var gap := PrimaryTail(d, last, lastEnd, hi);
    SweepEnd(now, s, done, k, gap, from, lastEnd, hi, false, last);
    OldOrMadeEnd(now, gap, s, made);
    made' := made + set p | p in gap;
  }

  /** The primary part of _disk_alloc_freespace. */
  method AllocPrimaryFreespace(d: Disk) returns (ghost made: set<Partition>)
    requires d.Shape() && forall p | p in d.prims :: IsUsedNode(p)
    modifies d`partList, d`prims, d`ext, d.prims`prev, d.prims`next
    ensures d.Shape() && d.ext == old(d.ext) && d.logs == old(d.logs)
    ensures Filter(IsUsedNode, d.prims) == old(d.prims)
    ensures fresh(made) && OldOrMade(d.prims, old(d.prims), made)
    ensures Slots(d.prims) == Fill(Slots(old(d.prims)), -1, d.length - 1, false)
  {
    hide Disk.Shape, Disk.Detached, Sweep, Fill, Filter, Slots;
    ShapeFacts(d);
    made := {};
    OldOrMadeSelf(d.prims);
    ghost var s, done, k := d.prims, [], 0;
    var last: Partition? := null;
    var lastEnd := -1;
    var walk := d.partList;
    SweepStart(s, lastEnd, d.length - 1, false);
    while walk != null
      invariant d.Shape() && d.ext == old(d.ext) && d.logs == old(d.logs)
      invariant Sweep(d.prims, s, done, k, -1, lastEnd, d.length - 1, false, walk, last)
      invariant fresh(made) && OldOrMade(d.prims, s, made)
      decreases |s| - k
    {
      SweepBounds(d.prims, s, done, k, -1, lastEnd, d.length - 1, false, walk, last);
      done, made := PassPrimary(d, walk, lastEnd, last, s, done, k, d.length - 1, -1, made);
      k := k + 1;
      last := walk;
      lastEnd := last.geom.end;
      walk := walk.next;
    }
    made := FinishPrimaries(d, last, lastEnd, d.length - 1, s, done, k, -1, made);
  }

  /** The placeholders are those of the current geometries. */
  ghost predicate IsFilled(d: Disk)
    reads d`prims, d`logs, d.prims`geom, d.logs`geom
  {
    d.TableOf() == Filled(d.CoreOf())
  }

  /** No placeholder is linked. */
  ghost predicate IsStripped(d: Disk)
    reads d`prims, d`logs
  {
    (forall p | p in d.prims :: IsUsedNode(p)) && (forall p | p in d.logs :: IsUsedNode(p))
  }

  lemma FilledBy(d: Disk, s: seq<Partition>, l: seq<Partition>)
    requires d.Shape() && s == Filter(IsUsedNode, d.prims) && l == Filter(IsUsedNode, d.logs)
    requires Slots(d.prims) == Fill(Slots(s), -1, d.length - 1, false)
    requires d.ext != null ==> Slots(d.logs) == Fill(Slots(l), d.ext.geom.start, d.ext.geom.end, true)
    ensures IsFilled(d)
  {
    hide Links, Fill, Filter, Slots, ExtIndex, Index;
    ExtIsOwner(s, d.ext);
    assert d.CoreOf() == Table(d.length, Slots(s), Slots(l));
  }

  /** _disk_alloc_freespace. */
  method AllocFreespace(d: Disk) returns (ghost made: set<Partition>)
    requires d.Shape()
    modifies d`partList, d`prims, d`logs, d`ext, d.Nodes()`prev, d.Nodes()`next, d.Owner()`partList
    ensures d.Shape() && d.ext == old(d.ext)
    ensures Filter(IsUsedNode, d.prims) == Filter(IsUsedNode, old(d.prims))
    ensures Filter(IsUsedNode, d.logs) == Filter(IsUsedNode, old(d.logs))
    ensures IsFilled(d)
    ensures fresh(made) && d.Nodes() <= old(d.Nodes()) + made
  {
    hide Disk.Shape, Fill, Filter, Slots, ExtIndex, IsFilled;
    RemoveFreespace(d);
    ghost var s, l := d.prims, d.logs;
    made := AllocExtendedFreespace(d);
    label L:
    ghost var more := AllocPrimaryFreespace(d);
    SlotsKept@L(d.logs);
    SlotsKept@L(l);
    FilledBy(d, s, l);
    made := made + more;
  }
}
