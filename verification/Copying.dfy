// Whole-disk operations: a fresh disk, deleting everything, duplicating.

module Copying {
  import opened Common
  import opened Layout
  import opened Placement
  import opened Nodes
  import opened Disks
  import opened Traversal
  import opened FreeSpace
  import opened UpdateMode
  import opened Edits

  /** A device without partitions is one placeholder. */
  predicate IsBlank(t: Table) {
    && t.logs == []
    && t.prims == if t.length > 0 then [FreeSlot(false, 0, t.length - 1)] else []
  }

  lemma FilledBlank(d: Disk)
    requires d.Shape() && IsFilled(d) && CoreList(d, false) == [] && CoreList(d, true) == [] && d.ext == null
    ensures IsBlank(d.TableOf())
  {
    ShapeFacts(d);
  }

  /** ped_disk_new_fresh. */
  method NewFresh(length: int, maxPrimaries: int, hasExtended: bool) returns (d: Disk)
    ensures fresh(d) && fresh(d.Nodes()) && d.Shape() && d.updateMode == 0 && d.needsClobber && d.ext == null
    ensures d.length == length && d.maxPrimaries == maxPrimaries && d.hasExtended == hasExtended
    ensures CoreList(d, false) == [] && CoreList(d, true) == [] && IsBlank(d.TableOf())
  {
    hide Disk.Shape, Disk.TableOf, IsFilled, IsBlank;
    d := new Disk(length, maxPrimaries, hasExtended);
    ghost var made := Pop(d);
    d.needsClobber := true;
    FilledBlank(d);
  }

  lemma FirstPrimary(d: Disk)
    requires d.Shape() && d.prims != []
    ensures !d.prims[0].ptype.logical
    ensures d.prims[0].next == Head(d.prims[1..]) && PrimsAfter(d.prims, d.prims[0]) == d.prims[1..]
  {
  }

  lemma NoPrimaries(d: Disk)
    requires d.Shape() && d.prims == []
    ensures d.ext == null && d.logs == []
  {
  }

  /** The loop of ped_disk_delete_all, in update mode. */
  method DeleteAllPushed(d: Disk)
    requires d.Shape() && d.updateMode > 0 && IsStripped(d)
    modifies d`updateMode, d`partList, d`prims, d`logs, d`ext, d.Nodes()`prev, d.Nodes()`next,
             d.Owner()`partList
    ensures d.Shape() && IsStripped(d) && d.updateMode == old(d.updateMode) && d.Nodes() <= old(d.Nodes())
    ensures d.prims == [] && d.logs == [] && d.ext == null
  {
    hide Disk.Shape, Filter, PrimsAfter, LogsAfter;
    ShapeFacts(d);
    var walk := d.partList;
    while walk != null
      invariant d.Shape() && IsStripped(d) && d.updateMode == old(d.updateMode)
      invariant walk == Head(d.prims) && d.Nodes() <= old(d.Nodes())
      invariant d.ext == old(d.ext) || d.ext == null
      decreases |d.prims|
    {
      FirstPrimary(d);
      var next := walk.next;
      ghost var made := DeletePartition(d, walk);
      FilterAll(IsUsedNode, d.prims);
      walk := next;
    }
    NoPrimaries(d);
  }

  /** ped_disk_delete_all: outside update mode one placeholder remains. */
  method DeleteAll(d: Disk) returns (ghost made: set<Partition>)
    requires d.Shape() && (d.updateMode > 0 ==> IsStripped(d))
    modifies d`updateMode, d`partList, d`prims, d`logs, d`ext, d.Nodes()`prev, d.Nodes()`next,
             d.Owner()`partList
    ensures d.Shape() && d.updateMode == old(d.updateMode) && d.ext == null
    ensures CoreList(d, false) == [] && CoreList(d, true) == []
    ensures if d.updateMode == 0 then IsBlank(d.TableOf()) else d.prims == [] && d.logs == []
    ensures fresh(made) && d.Nodes() <= old(d.Nodes()) + made
  {
    hide Disk.Shape, Disk.TableOf, Filter, IsFilled, IsBlank;
    Push(d);
    DeleteAllPushed(d);
    made := Pop(d);
    if d.updateMode == 0 {
      FilledBlank(d);
    }
  }

  // ----- Duplicating -----

  /** A node with the type and geometry of oldPart, linked. */
  method LinkCopy(d: Disk, oldPart: Partition)
    requires d.Shape() && IsStripped(d)
    requires IsUsedNode(oldPart)
    requires oldPart.ptype.IsExtended() ==> d.ext == null
    requires oldPart.ptype.logical ==> d.ext != null
    modifies d`partList, d`prims, d`logs, d`ext, d.Nodes()`prev, d.Nodes()`next, d.Owner()`partList
    ensures d.Shape() && IsStripped(d)
    ensures if oldPart.ptype.IsExtended() then d.ext != null && fresh(d.ext) else d.ext == old(d.ext)
    ensures fresh(d.Nodes() - old(d.Nodes()))
    ensures d.TableOf() == Added(old(d.TableOf()), SlotOf(oldPart))
  {
    hide Disk.Shape, Disk.TableOf, Added, Slots, InsertPos, With;
    OwnerFacts(d);
    ghost var s := d.List(oldPart.ptype.logical);
    var part := new Partition(oldPart.ptype, oldPart.geom);
    ShapeKept(d);
    TableKept(d);
    WithMembers(s, InsertPos(Slots(s), part.geom.end), part);
    SlotsKept(s);
    LinkNew(d, part);
  }

  /** _add_duplicate_part; the label's duplicate of a partition is a node of its
      own with the same type and geometry. */
  method AddDuplicatePart(d: Disk, oldPart: Partition)
    requires d.Shape() && d.updateMode > 0 && IsStripped(d)
    requires IsUsedNode(oldPart)
    requires oldPart.ptype.IsExtended() ==> d.ext == null
    requires oldPart.ptype.logical ==> d.ext != null
    modifies d`updateMode, d`partList, d`prims, d`logs, d`ext, d.Nodes()`prev, d.Nodes()`next, d.Owner()`partList
    ensures d.Shape() && IsStripped(d) && d.updateMode == old(d.updateMode)
    ensures if oldPart.ptype.IsExtended() then d.ext != null && fresh(d.ext) else d.ext == old(d.ext)
    ensures fresh(d.Nodes() - old(d.Nodes()))
    ensures d.TableOf() == Added(old(d.TableOf()), SlotOf(oldPart))
  {
    hide Disk.Shape, Disk.TableOf, Filter, Added, Slots, IsFilled;
    Push(d);
    TableKept(d);
    LinkCopy(d, oldPart);
    label M:
    ghost var made := Pop(d);
    TableKept@M(d);
  }

  /** The slots of s, each inserted behind those in front of it. */
  function Rebuilt(s: seq<Slot>): seq<Slot> {
    if s == [] then [] else Insert(Rebuilt(s[..|s| - 1]), s[|s| - 1])
  }

  /** Whatever the order, the copy has the same slots. */
  lemma {:induction false} RebuiltPermutes(s: seq<Slot>)
    ensures multiset(Rebuilt(s)) == multiset(s)
  {
    if s != [] {
      hide InsertPos, With;
      var front, x := s[..|s| - 1], s[|s| - 1];
      RebuiltPermutes(front);
      assert s == front + [x];
      WithPermutes(Rebuilt(front), InsertPos(Rebuilt(front), x.geom.end), x);
    }
  }

  lemma WithPermutes(s: seq<Slot>, k: nat, x: Slot)
    requires k <= |s|
    ensures multiset(With(s, k, x)) == multiset(s) + multiset{x}
  {
    assert s == s[..k] + s[k..];
  }

  function RebuiltTable(t: Table): Table {
    Table(t.length, Rebuilt(t.prims), Rebuilt(t.logs))
  }

  /** No slot lies wholly behind a later one. */
  ghost predicate InOrder(s: seq<Slot>) {
    forall i, j :: 0 <= i < j < |s| ==> s[i].geom.start <= s[j].geom.end
  }

  lemma InsertInOrder(s: seq<Slot>, x: Slot)
    requires InOrder(s) && x.geom.Valid() && forall i :: 0 <= i < |s| ==> s[i].geom.Valid()
    ensures InOrder(Insert(s, x)) && |Insert(s, x)| == |s| + 1
    ensures forall i :: 0 <= i < |s| + 1 ==> Insert(s, x)[i].geom.Valid()
  {
    var k, r := InsertPos(s, x.geom.end), Insert(s, x);
    assert forall i :: 0 <= i < |r| ==> r[i] == if i < k then s[i] else if i == k then x else s[i - 1];
    assert forall j :: k <= j < |s| ==> x.geom.start <= s[j].geom.end;
    hide Insert, InsertPos;
  }

  /** Rebuilding puts valid slots in order, and so leaves exactly those lists
      as they are that are in order. */
  lemma {:induction false} RebuiltInOrder(s: seq<Slot>)
    requires forall i :: 0 <= i < |s| ==> s[i].geom.Valid()
    ensures InOrder(Rebuilt(s)) && |Rebuilt(s)| == |s| && forall i :: 0 <= i < |s| ==> Rebuilt(s)[i].geom.Valid()
    ensures Rebuilt(s) == s <==> InOrder(s)
    decreases |s|
  {
    if s != [] {
      var n := |s| - 1;
      hide Insert, InOrder;
      RebuiltInOrder(s[..n]);
      InsertInOrder(Rebuilt(s[..n]), s[n]);
      if InOrder(s) {
        InOrderPrefix(s, n);
        NextIsLast(s, n);
        assert s[..n + 1] == s;
      }
    }
  }

  lemma InOrderPrefix(s: seq<Slot>, k: nat)
    requires InOrder(s) && k <= |s|
    ensures InOrder(s[..k])
  {
  }

  /** The slot after a prefix is inserted right behind it. */
  lemma NextIsLast(s: seq<Slot>, k: nat)
    requires InOrder(s) && k < |s|
    ensures Insert(s[..k], s[k]) == s[..k + 1]
  {
    InsertPosIs(s[..k], s[k].geom.end, k);
  }

  /** A table without overlaps is rebuilt as it is. */
  lemma RebuiltSound(t: Table)
    requires Sound(t)
    ensures RebuiltTable(t) == t
  {
    hide Rebuilt, InOrder;
    forall i | 0 <= i < |t.prims|
      ensures t.prims[i].geom.Valid()
    {
      MemberOf(t, false, i);
    }
    forall i | 0 <= i < |t.logs|
      ensures t.logs[i].geom.Valid()
    {
      MemberOf(t, true, i);
    }
    SoundInOrder(t);
    RebuiltInOrder(t.prims);
    RebuiltInOrder(t.logs);
  }

  lemma SoundInOrder(t: Table)
    requires Sound(t)
    ensures InOrder(t.prims) && InOrder(t.logs)
  {
    hide ExtIndex;
  }

  /** What has been copied once the nodes s of the old disk are passed. */
  ghost function Copied(length: int, s: seq<Partition>): Table
    reads s`geom
  {
    var a := Filter(IsActiveNode, s);
    var p, l := Filter(IsPrimaryNode, a), Filter(IsLogicalNode, a);
    assert forall i | 0 <= i < |p| :: p[i] in s;
    assert forall i | 0 <= i < |l| :: l[i] in s;
    Table(length, Rebuilt(Slots(p)), Rebuilt(Slots(l)))
  }

  lemma {:induction false} FilterCommutes<T>(p: T -> bool, q: T -> bool, s: seq<T>)
    ensures Filter(p, Filter(q, s)) == Filter(q, Filter(p, s))
  {
    if s != [] {
      FilterCommutes(p, q, s[1..]);
      FilterConcat(p, if q(s[0]) then [s[0]] else [], Filter(q, s[1..]));
      FilterConcat(q, if p(s[0]) then [s[0]] else [], Filter(p, s[1..]));
    }
  }

  lemma CopiedAll(d: Disk)
    requires d.Shape() && d.updateMode == 0
    ensures Copied(d.length, Dfs(d)) == RebuiltTable(BaseTable(d))
  {
    hide Filter, Slots;
    DfsMeetsAll(d);
    FilterCommutes(IsPrimaryNode, IsActiveNode, Dfs(d));
    FilterCommutes(IsLogicalNode, IsActiveNode, Dfs(d));
  }

  /** Filtering a list in two parts. */
  lemma FilterAt(q: Partition -> bool, D: seq<Partition>, i: nat) returns (k: nat)
    requires i < |D|
    ensures k <= |Filter(q, D)| && Filter(q, D[..i]) == Filter(q, D)[..k]
    ensures Filter(q, D[..i + 1]) == if q(D[i]) then Filter(q, D)[..k] + [D[i]] else Filter(q, D)[..k]
    ensures q(D[i]) ==> k < |Filter(q, D)| && Filter(q, D)[k] == D[i]
  {
    hide Filter;
    k := |Filter(q, D[..i])|;
    assert D[..i + 1] == D[..i] + [D[i]];
    assert D == D[..i + 1] + D[i + 1..];
    FilterSnoc(q, D[..i], D[i]);
    FilterConcat(q, D[..i + 1], D[i + 1..]);
  }

  lemma FilterPoint(s: seq<Partition>, i: nat)
    requires i < |s|
    ensures var n := |Filter(IsUsedNode, s[..i])|;
      && n <= |Filter(IsUsedNode, s)|
      && |Filter(IsUsedNode, s[..i + 1])| == (if IsUsedNode(s[i]) then n + 1 else n)
      && (IsUsedNode(s[i]) ==> n < |Filter(IsUsedNode, s)| && Filter(IsUsedNode, s)[n] == s[i])
  {
    hide Filter;
    var n := FilterAt(IsUsedNode, s, i);
  }

  /** One more node of the old disk is passed; active ones are copied. */
  lemma CopyStep(d: Disk, i: nat)
    requires d.Shape() && i < |Dfs(d)|
    ensures var x, t := Dfs(d)[i], Copied(d.length, Dfs(d)[..i]);
      Copied(d.length, Dfs(d)[..i + 1]) == if IsActiveNode(x) then Added(t, SlotOf(x)) else t
  {
    hide Filter, Slots, Disk.Shape, Dfs, Rebuilt, Insert;
    var D, x := Dfs(d), Dfs(d)[i];
    var A := Filter(IsActiveNode, D[..i]);
    var p, l := Filter(IsPrimaryNode, A), Filter(IsLogicalNode, A);
    assert D[..i + 1] == D[..i] + [x];
    FilterSnoc(IsActiveNode, D[..i], x);
    assert A + [] == A && p + [] == p && l + [] == l;
    if IsActiveNode(x) {
      FilterSnoc(IsPrimaryNode, A, x);
      FilterSnoc(IsLogicalNode, A, x);
      RebuiltSnoc(if x.ptype.logical then l else p, x);
    }
  }

  lemma RebuiltSnoc(s: seq<Partition>, x: Partition)
    ensures Rebuilt(Slots(s + [x])) == Insert(Rebuilt(Slots(s)), SlotOf(x))
  {
    hide Slots, Insert;
    SlotsConcat(s, [x]);
    assert Slots([x]) == [SlotOf(x)];
    var r := Slots(s) + [SlotOf(x)];
    assert r[..|r| - 1] == Slots(s);
  }

  /** The extended partition is met before its logicals. */
  lemma OwnerFirst(d: Disk, i: nat)
    requires d.Shape() && i < |Dfs(d)|
    ensures Dfs(d)[i].ptype.logical ==> d.ext != null && d.ext in Dfs(d)[..i]
    ensures Dfs(d)[i].ptype.IsExtended() <==> Dfs(d)[i] == d.ext
    ensures Dfs(d)[i] == d.ext ==> d.ext !in Dfs(d)[..i]
  {
    hide Disk.Shape, Filter, Dfs, Index;
    DfsMeetsAll(d);
    NodeKind(d, Dfs(d)[i]);
    if Dfs(d)[i].ptype.logical {
      Behind(Dfs(d), Index(d.prims, d.ext), d.logs, i);
    }
  }

  lemma NodeKind(d: Disk, p: Partition)
    requires d.Shape() && p in Dfs(d)
    ensures p.ptype.logical ==> p in d.logs && d.ext != null && d.ext in d.prims
    ensures p.ptype.IsExtended() <==> p == d.ext
  {
    hide Dfs, Links;
    DfsMembers(d);
  }

  /** A member of the part l of s that follows place k stands behind it. */
  lemma Behind(s: seq<Partition>, k: nat, l: seq<Partition>, i: nat)
    requires Distinct(s) && k + 1 + |l| <= |s| && s[k + 1..k + 1 + |l|] == l
    requires i < |s| && s[i] in l
    ensures s[k] in s[..i]
  {
    var j :| 0 <= j < |l| && l[j] == s[i];
    assert s[k + 1..k + 1 + |l|][j] == s[k + 1 + j];
    assert s[..i][k] == s[k];
  }

  lemma MemberOf(t: Table, logical: bool, i: nat)
    requires Sound(t) && i < |t.Siblings(logical)|
    ensures t.Siblings(logical)[i].geom.Valid()
  {
    if logical && t.Ext().Some? {
      var e := ExtIndex(t.prims);
      assert 0 <= t.prims[e].geom.start;
    }
  }

  /** The nodes in front of position i of the old disk are copied. */
  ghost predicate CopiedUpTo(d: Disk, r: Disk, i: nat)
    requires i <= |Dfs(d)|
    reads d, r, d.Nodes()`geom, r.Nodes()`geom, d.Owner()`geom
  {
    DfsIn(d);
    && r.TableOf() == Copied(d.length, Dfs(d)[..i])
    && (r.ext != null <==> d.ext != null && d.ext in Dfs(d)[..i])
  }

  lemma DfsIn(d: Disk)
    ensures forall i | 0 <= i < |Dfs(d)| :: Dfs(d)[i] in d.Nodes()
  {
  }

  /** What is copied so far depends on geometries only. */
  twostate lemma CopiedKept(s: seq<Partition>)
    requires forall i | 0 <= i < |s| :: s[i].geom == old(s[i].geom)
    ensures forall n: int :: Copied(n, s) == old(Copied(n, s))
  {
    hide Slots, Filter;
    var a := Filter(IsActiveNode, s);
    var p, l := Filter(IsPrimaryNode, a), Filter(IsLogicalNode, a);
    assert forall i | 0 <= i < |p| :: p[i] in s;
    assert forall i | 0 <= i < |l| :: l[i] in s;
    SlotsKept(p);
    SlotsKept(l);
  }

  datatype Copy = Copy(d: Disk, r: Disk, i: nat)

  /** A step that writes neither disk changes nothing of this. */
  twostate lemma CopiedUpToKept(w: Copy)
    requires w.i <= |old(Dfs(w.d))| && old(CopiedUpTo(w.d, w.r, w.i))
    requires w.d.prims == old(w.d.prims) && w.d.logs == old(w.d.logs) && w.d.ext == old(w.d.ext)
    requires w.r.prims == old(w.r.prims) && w.r.logs == old(w.r.logs) && w.r.ext == old(w.r.ext)
    requires forall p | p in old(w.d.prims) || p in old(w.d.logs) :: p.geom == old(p.geom)
    requires forall p | p in old(w.r.prims) || p in old(w.r.logs) :: p.geom == old(p.geom)
    ensures Dfs(w.d) == old(Dfs(w.d)) && CopiedUpTo(w.d, w.r, w.i)
  {
    hide Copied, Index;
    var D := old(Dfs(w.d));
    var s := D[..w.i];
    assert forall i | 0 <= i < |D| :: D[i] in old(w.d.prims) || D[i] in old(w.d.logs);
    CopiedKept(s);
    TableKept(w.r);
  }

  /** The node of the old disk at position i is copied, if it is active. */
  method CopyOne(d: Disk, r: Disk, walk: Partition, ghost i: nat)
    requires d.Shape() && d.updateMode == 0 && i < |Dfs(d)| && Dfs(d)[i] == walk
    requires r != d && r.Nodes() !! d.Nodes() && r.Shape() && IsStripped(r) && r.updateMode > 0 && CopiedUpTo(d, r, i)
    modifies r`updateMode, r`partList, r`prims, r`logs, r`ext, r.Nodes()`prev, r.Nodes()`next, r.Owner()`partList
    ensures r.Shape() && IsStripped(r) && r.updateMode == old(r.updateMode)
    ensures fresh(r.Nodes() - old(r.Nodes())) && (r.ext == old(r.ext) || r.ext == null || fresh(r.ext))
    ensures CopiedUpTo(d, r, i + 1)
  {
    hide Disk.Shape, Disk.TableOf, Dfs, Copied, Added, BaseTable, Sound;
    CopyStep(d, i);
    OwnerFirst(d, i);
    ghost var done := Dfs(d)[..i];
    assert Dfs(d)[..i + 1] == done + [walk];
    if IsActiveNode(walk) {
      DfsIn(d);
      AddDuplicatePart(r, walk);
      CopiedKept(done);
    }
  }

  /** The body of the loop of ped_disk_duplicate. */
  method CopyAndAdvance(d: Disk, r: Disk, walk: Partition, ghost i: nat) returns (next: Partition?)
    requires d.Shape() && d.updateMode == 0 && i < |Dfs(d)| && Dfs(d)[i] == walk
    requires r != d && r.Nodes() !! d.Nodes() && r.Shape() && IsStripped(r) && r.updateMode > 0 && CopiedUpTo(d, r, i)
    modifies r`updateMode, r`partList, r`prims, r`logs, r`ext, r.Nodes()`prev, r.Nodes()`next, r.Owner()`partList
    ensures d.Shape() && r.Shape() && IsStripped(r) && r.updateMode == old(r.updateMode)
    ensures fresh(r.Nodes() - old(r.Nodes())) && (r.ext == old(r.ext) || r.ext == null || fresh(r.ext))
    ensures CopiedUpTo(d, r, i + 1) && next == if i + 1 < |Dfs(d)| then Dfs(d)[i + 1] else null
  {
    hide Disk.Shape, Dfs, BaseTable, Sound, CopiedUpTo;
    OwnerLinked(r);
    CopyOne(d, r, walk, i);
    ShapeKept(d);
    label L:
    next := NextPartition(d, walk, i);
    CopiedUpToKept@L(Copy(d, r, i + 1));
    ShapeKept@L(r);
  }

  lemma NoneActive(s: seq<Partition>)
    requires Filter(IsUsedNode, s) == []
    ensures Filter(IsActiveNode, s) == []
  {
    FilterFilter(IsUsedNode, IsActiveNode, s);
    FilterNone(IsActiveNode, []);
  }

  /** The push that ped_disk_duplicate starts with. */
  method PushBlank(r: Disk)
    requires r.Shape() && r.updateMode == 0 && r.ext == null
    requires CoreList(r, true) == [] && CoreList(r, false) == []
    modifies r`updateMode, r`partList, r`prims, r`logs, r`ext, r.Nodes()`prev, r.Nodes()`next
    ensures r.Shape() && IsStripped(r) && r.updateMode == 1 && r.prims == [] && r.logs == [] && r.ext == null
  {
    hide Disk.Shape, Filter;
    NoneActive(r.prims);
    NoneActive(r.logs);
    Push(r);
  }

  /** What the copying loop starts from: a fresh disk, in update mode. */
  method NewPushed(length: int, maxPrimaries: int, hasExtended: bool) returns (r: Disk)
    ensures fresh(r) && fresh(r.Nodes()) && r.Shape() && IsStripped(r) && r.updateMode == 1
    ensures r.length == length && r.maxPrimaries == maxPrimaries && r.hasExtended == hasExtended
    ensures r.prims == [] && r.logs == [] && r.ext == null
  {
    hide Disk.Shape, Disk.TableOf, Filter, IsBlank;
    r := NewFresh(length, maxPrimaries, hasExtended);
    PushBlank(r);
  }

  lemma StartCopy(d: Disk, r: Disk)
    requires d.Shape() && r.prims == [] && r.logs == [] && r.ext == null && r.length == d.length
    ensures CopiedUpTo(d, r, 0)
    ensures d.partList == Head(Dfs(d))
  {
    DfsHead(d);
  }

  lemma EndCopy(d: Disk, r: Disk)
    requires CopiedUpTo(d, r, |Dfs(d)|) && d.Shape() && d.updateMode == 0
    ensures r.TableOf() == RebuiltTable(BaseTable(d))
  {
    assert Dfs(d)[..|Dfs(d)|] == Dfs(d);
    hide Disk.TableOf, Dfs, Copied, BaseTable, Disk.Shape;
    CopiedAll(d);
  }

  /** The loop of ped_disk_duplicate. */
  method CopyAll(d: Disk, r: Disk)
    requires d.Shape() && d.updateMode == 0
    requires r != d && r.Shape() && IsStripped(r) && r.updateMode == 1 && r.length == d.length
    requires r.prims == [] && r.logs == [] && r.ext == null
    modifies r`updateMode, r`partList, r`prims, r`logs, r`ext
    ensures r.Shape() && IsStripped(r) && r.updateMode == 1
    ensures fresh(r.Nodes()) && (r.ext == null || fresh(r.ext))
    ensures r.TableOf() == RebuiltTable(BaseTable(d))
  {
    hide Disk.Shape, Disk.TableOf, Dfs, BaseTable, Sound, CopiedUpTo;
    StartCopy(d, r);
    label A:
    var walk := NextPartition(d, null, -1);
    ghost var i := 0;
    CopiedUpToKept@A(Copy(d, r, 0));
    ShapeKept@A(r);
    while walk != null
      invariant i <= |Dfs(d)| && walk == if i < |Dfs(d)| then Dfs(d)[i] else null
      invariant r.Shape() && IsStripped(r) && r.updateMode == 1 && d.Shape()
      invariant fresh(r.Nodes()) && (r.ext == null || fresh(r.ext))
      invariant CopiedUpTo(d, r, i)
      decreases |Dfs(d)| - i
    {
      walk := CopyAndAdvance(d, r, walk, i);
      i := i + 1;
    }
    EndCopy(d, r);
  }

  /** ped_disk_duplicate.  The copy has the slots of the original, which are
      also in the original order exactly if that is the order of linking. */
  method DuplicateDisk(d: Disk) returns (r: Disk)
    requires d.Shape() && d.updateMode == 0
    ensures fresh(r) && fresh(r.Nodes()) && r.Shape() && r.updateMode == 0 && r.needsClobber == d.needsClobber
    ensures r.length == d.length && r.maxPrimaries == d.maxPrimaries && r.hasExtended == d.hasExtended
    ensures r.CoreOf() == RebuiltTable(BaseTable(d)) && IsFilled(r)
    ensures d.Shape()
  {
    hide Disk.Shape, Disk.TableOf, Disk.CoreOf, Filter, IsFilled, IsBlank, BaseTable, Sound;
    r := NewPushed(d.length, d.maxPrimaries, d.hasExtended);
    ShapeKept(d);
    CopyAll(d, r);
    FinishCopy(r, d.needsClobber);
    ShapeKept(d);
  }

  /** Its pop, and the flag it copies last. */
  method FinishCopy(r: Disk, needsClobber: bool)
    requires r.Shape() && IsStripped(r) && r.updateMode == 1
    modifies r`updateMode, r`partList, r`prims, r`logs, r`ext, r.Nodes()`prev, r.Nodes()`next, r.Owner()`partList,
        r`needsClobber
    ensures r.Shape() && r.updateMode == 0 && fresh(r.Nodes() - old(r.Nodes())) && r.needsClobber == needsClobber
    ensures r.CoreOf() == old(r.TableOf()) && IsFilled(r)
  {
    hide Disk.Shape, Disk.TableOf, Disk.CoreOf, Filter;
    ghost var made := Pop(r);
    PoppedCore(r);
    label P:
    r.needsClobber := needsClobber;
    ShapeKept@P(r);
  }

  // ----- The copy in depth-first order -----

  /** The depth-first order of a table. */
  function FlatSlots(p: seq<Slot>, l: seq<Slot>): seq<Slot> {
    var e := ExtIndex(p);
    if e < 0 then p else p[..e + 1] + l + p[e + 1..]
  }

  lemma {:induction false} IndexBehind(a: seq<Partition>, x: Partition, b: seq<Partition>)
    requires x !in a
    ensures Index(a + [x] + b, x) == |a|
  {
    var s := a + [x] + b;
    assert s[|a|] == x;
    assert forall i :: 0 <= i < |a| ==> s[i] == a[i];
  }

  /** The active nodes, in traversal order, as values. */
  lemma ActiveDfs(d: Disk)
    requires d.Shape()
    ensures Slots(Filter(IsActiveNode, Dfs(d)))
         == FlatSlots(Slots(Filter(IsActiveNode, d.prims)), Slots(Filter(IsActiveNode, d.logs)))
  {
    hide Filter, Slots, ExtIndex, Index, Links, Flatten, FlatSlots;
    ShapeFacts(d);
    OwnerFacts(d);
    if d.ext == null {
      NoOwnerFlat(d.prims, d.logs);
    } else {
      OwnerFlat(d.prims, d.logs, d.ext);
    }
  }

  lemma NoOwnerFlat(prims: seq<Partition>, logs: seq<Partition>)
    requires logs == [] && forall i :: 0 <= i < |prims| ==> !prims[i].ptype.IsExtended()
    ensures Slots(Filter(IsActiveNode, Flatten(prims, logs, null)))
         == FlatSlots(Slots(Filter(IsActiveNode, prims)), Slots(Filter(IsActiveNode, logs)))
  {
    hide Filter, Slots, ExtIndex;
    ExtIsOwner(Filter(IsActiveNode, prims), null);
  }

  lemma OwnerFlat(prims: seq<Partition>, logs: seq<Partition>, ext: Partition)
    requires ext in prims && forall i :: 0 <= i < |prims| ==> (prims[i].ptype.IsExtended() <==> prims[i] == ext)
    ensures Slots(Filter(IsActiveNode, Flatten(prims, logs, ext)))
         == FlatSlots(Slots(Filter(IsActiveNode, prims)), Slots(Filter(IsActiveNode, logs)))
  {
    hide Filter, Slots, ExtIndex, Index, FlatSlots;
    var k := Index(prims, ext);
    var a, b := prims[..k], prims[k + 1..];
    assert prims == a + [ext] + b && prims[..k + 1] == a + [ext];
    ExtIsOwner(Filter(IsActiveNode, prims), ext);
    ActiveFlat(a, ext, logs, b);
  }

  lemma ActiveFlat(a: seq<Partition>, x: Partition, l: seq<Partition>, b: seq<Partition>)
    requires x !in a && IsActiveNode(x)
        && ExtIndex(Slots(Filter(IsActiveNode, a + [x] + b))) == Index(Filter(IsActiveNode, a + [x] + b), x)
    ensures Slots(Filter(IsActiveNode, a + [x] + l + b))
         == FlatSlots(Slots(Filter(IsActiveNode, a + [x] + b)), Slots(Filter(IsActiveNode, l)))
  {
    hide Filter, Slots, ExtIndex, Index;
    var fa, fb := Filter(IsActiveNode, a), Filter(IsActiveNode, b);
    FilterSnoc(IsActiveNode, a, x);
    FilterConcat(IsActiveNode, a + [x], b);
    FilterConcat(IsActiveNode, a + [x] + l, b);
    FilterConcat(IsActiveNode, a + [x], l);
    IndexBehind(fa, x, fb);
    FlatAt(fa + [x], Filter(IsActiveNode, l), fb);
  }

  lemma FlatAt(a: seq<Partition>, l: seq<Partition>, b: seq<Partition>)
    ensures Slots(a + l + b) == Slots(a + b)[..|a|] + Slots(l) + Slots(a + b)[|a|..]
  {
    hide Slots;
    SlotsConcat(a + l, b);
    SlotsConcat(a, l);
    SlotsConcat(a, b);
  }

  lemma {:induction false} ActiveTypes(s: seq<Partition>, u: seq<Partition>)
    requires Slots(Filter(IsUsedNode, s)) == Slots(Filter(IsActiveNode, u))
    ensures Filter(IsActiveNode, s) == Filter(IsUsedNode, s)
  {
    hide Filter, Slots;
    var a, b := Filter(IsUsedNode, s), Filter(IsActiveNode, u);
    forall p | p in a
      ensures IsActiveNode(p)
    {
      var i :| 0 <= i < |a| && a[i] == p;
      assert Slots(b)[i].ptype == p.ptype && b[i] in b;
    }
    FilterFilter(IsUsedNode, IsActiveNode, s);
    FilterAll(IsActiveNode, a);
  }

  /** A duplicate's active nodes have, in depth-first order, the types and the
      geometries of the original's. */
  lemma DuplicateDfs(d: Disk, r: Disk)
    requires d.Shape() && r.Shape() && d.updateMode == 0 && r.CoreOf() == BaseTable(d)
    ensures Slots(Filter(IsActiveNode, Dfs(r))) == Slots(Filter(IsActiveNode, Dfs(d)))
  {
    hide Filter, Slots, Disk.Shape, FlatSlots;
    ActiveTypes(r.prims, d.prims);
    ActiveTypes(r.logs, d.logs);
    ActiveDfs(d);
    ActiveDfs(r);
  }
}
