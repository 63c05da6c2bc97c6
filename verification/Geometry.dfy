// Sector intervals and placement constraints of libparted (cs/geom.c,
// cs/constraint.c), as far as the partition editor in disk.c uses them.

module Common {

  datatype Option<+T> = None | Some(value: T)

  /** The elements of s that satisfy p, in order. */
  function Filter<T>(p: T -> bool, s: seq<T>): (r: seq<T>)
    ensures forall x | x in r :: x in s && p(x)
    ensures forall x | x in s && p(x) :: x in r
    ensures |r| <= |s|
  {
    if s == [] then [] else (if p(s[0]) then [s[0]] else []) + Filter(p, s[1..])
  }

  lemma {:induction false} FilterConcat<T>(p: T -> bool, a: seq<T>, b: seq<T>)
    ensures Filter(p, a + b) == Filter(p, a) + Filter(p, b)
  {
    if a == [] {
      assert a + b == b;
    } else {
      assert (a + b)[1..] == a[1..] + b;
      FilterConcat(p, a[1..], b);
    }
  }

  lemma FilterSnoc<T>(p: T -> bool, s: seq<T>, x: T)
    ensures Filter(p, s + [x]) == Filter(p, s) + (if p(x) then [x] else [])
  {
    FilterConcat(p, s, [x]);
  }

  lemma {:induction false} FilterAll<T>(p: T -> bool, s: seq<T>)
    requires forall x :: x in s ==> p(x)
    ensures Filter(p, s) == s
  {
    if s != [] {
      FilterAll(p, s[1..]);
    }
  }

  lemma {:induction false} FilterNone<T>(p: T -> bool, s: seq<T>)
    requires forall x :: x in s ==> !p(x)
    ensures Filter(p, s) == []
  {
    if s != [] {
      FilterNone(p, s[1..]);
    }
  }

  /** Filtering twice keeps what the stronger of two nested predicates keeps. */
  lemma {:induction false} FilterFilter<T>(p: T -> bool, q: T -> bool, s: seq<T>)
    requires forall x | x in s :: q(x) ==> p(x)
    ensures Filter(q, Filter(p, s)) == Filter(q, s)
  {
    if s != [] {
      FilterFilter(p, q, s[1..]);
      FilterConcat(q, if p(s[0]) then [s[0]] else [], Filter(p, s[1..]));
    }
  }

  function Without<T>(s: seq<T>, k: nat): (r: seq<T>)
    requires k < |s|
    ensures |r| == |s| - 1
  {
    s[..k] + s[k + 1..]
  }

  function With<T>(s: seq<T>, k: nat, x: T): (r: seq<T>)
    requires k <= |s|
    ensures |r| == |s| + 1 && r[k] == x
  {
    s[..k] + [x] + s[k..]
  }

  lemma WithoutWith<T>(s: seq<T>, k: nat, x: T)
    requires k <= |s|
    ensures Without(With(s, k, x), k) == s
  {
  }

  lemma WithWithout<T>(s: seq<T>, k: nat)
    requires k < |s|
    ensures With(Without(s, k), k, s[k]) == s
  {
  }
}

module Geometry {
  import opened Common

  const LLONG_MAX := 0x7fff_ffff_ffff_ffff

  /** A PedGeometry: the inclusive sector interval start..end. */
  datatype Geom = Geom(start: int, end: int) {
    /** What ped_geometry_set guarantees of every geometry it fills in. */
    predicate Valid() {
      0 <= start <= end
    }

    function Length(): int {
      end - start + 1
    }

    predicate Has(sector: int) {
      start <= sector <= end
    }

    predicate Inside(outer: Geom) {
      outer.start <= start && end <= outer.end
    }

    predicate Disjoint(other: Geom) {
      end < other.start || other.end < start
    }
  }

  /** ped_geometry_intersect: the common sectors, or None. */
  function Intersect(a: Geom, b: Geom): (r: Option<Geom>)
    ensures forall x :: a.Has(x) && b.Has(x) <==> r.Some? && r.value.Has(x)
    ensures r.Some? ==> r.value.start <= r.value.end
  {
    var start := if a.start > b.start then a.start else b.start;
    var end := if a.end < b.end then a.end else b.end;
    if start > end then None else Some(Geom(start, end))
  }

  datatype Alignment = Alignment(offset: int, grain: nat) {
    predicate Aligned(sector: int) {
      if grain == 0 then sector == offset else (sector - offset) % grain == 0
    }
  }

  const ANY := Alignment(0, 1)

  datatype Constraint = Constraint(
      startAlign: Alignment, endAlign: Alignment,
      startRange: Geom, endRange: Geom, minSize: int, maxSize: int) {

    /** ped_constraint_is_solution. */
    predicate IsSolution(g: Geom) {
      && startAlign.Aligned(g.start)
      && endAlign.Aligned(g.end)
      && startRange.Has(g.start)
      && endRange.Has(g.end)
      && minSize <= g.Length() <= maxSize
    }
  }

  function ConstraintAny(length: int): Constraint {
    Constraint(ANY, ANY, Geom(0, length - 1), Geom(0, length - 1), 1, length)
  }

  function ConstraintExact(g: Geom, length: int): Constraint {
    Constraint(Alignment(g.start, 0), Alignment(g.end, 0), Geom(g.start, g.start), Geom(g.end, g.end), 1, length)
  }

  /** The intersection of the constraint "inside window" with c.  A missing
      window or a missing constraint gives no constraint at all. */
  function Narrow(window: Option<Geom>, c: Option<Constraint>): Option<Constraint> {
    if window.None? || c.None? then None
    else
      var starts := Intersect(window.value, c.value.startRange);
      var ends := Intersect(window.value, c.value.endRange);
      if starts.None? || ends.None? then None
      else
        var size := window.value.Length();
        Some(c.value.(
          startRange := starts.value,
          endRange := ends.value,
          minSize := if c.value.minSize > 1 then c.value.minSize else 1,
          maxSize := if c.value.maxSize < size then c.value.maxSize else size))
  }

  /** A region solves the narrowed constraint exactly when it solves c and lies
      inside the window; when there is no narrowed constraint, no region does. */
  lemma NarrowSolutions(window: Geom, c: Constraint, g: Geom)
    requires g.Valid()
    ensures (c.IsSolution(g) && g.Inside(window))
       <==> (Narrow(Some(window), Some(c)).Some? && Narrow(Some(window), Some(c)).value.IsSolution(g))
  {
    var starts := Intersect(window, c.startRange);
    var ends := Intersect(window, c.endRange);
    assert window.Has(g.start) && c.startRange.Has(g.start) <==> starts.Some? && starts.value.Has(g.start);
    assert window.Has(g.end) && c.endRange.Has(g.end) <==> ends.Some? && ends.value.Has(g.end);
  }
}
