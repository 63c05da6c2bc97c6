// Alignments and the solver of placement constraints (cs/natmath.c,
// cs/constraint.c).

module Alignments {
  import opened Common
  import opened Geometry

  // ----- Rounding -----

  /** The remainder as C computes it, for a positive divisor. */
  function Rem(a: int, b: nat): int
    requires b > 0
  {
    if a < 0 then -(-a % b) else a % b
  }

  /** abs_mod. */
  function AbsMod(a: int, b: nat): int
    requires b > 0
  {
    if a < 0 then Rem(a, b) + b else Rem(a, b)
  }

  /** ped_round_down_to. */
  function RoundDown(sector: int, grain: nat): int
    requires grain > 0
  {
    sector - AbsMod(sector, grain)
  }

  /** ped_round_up_to. */
  function RoundUp(sector: int, grain: nat): int
    requires grain > 0
  {
    if Rem(sector, grain) != 0 then RoundDown(sector, grain) + grain else sector
  }

  lemma NegRem(a: int, b: nat)
    requires b > 0 && a < 0
    ensures -(-a % b) == if a % b == 0 then 0 else a % b - b
  {
    var q, r := -a / b, -a % b;
    assert -a == q * b + r;
    if r == 0 {
      QuotientIs(a, b, -q, 0);
    } else {
      assert a == (-q - 1) * b + (b - r);
      QuotientIs(a, b, -q - 1, b - r);
    }
  }

  lemma QuotientIs(a: int, b: nat, q: int, r: int)
    requires 0 <= r < b && a == q * b + r
    ensures a / b == q && a % b == r
  {
    var d := a / b - q;
    assert a == (a / b) * b + a % b;
    assert d * b == r - a % b;
    if d >= 1 {
      AtLeast(d, b);
    } else if d <= -1 {
      AtLeast(-d, b);
    }
  }

  lemma AtLeast(k: int, b: int)
    requires k >= 1 && b >= 0
    ensures k * b >= b && -k * b <= -b
  {
  }

  lemma RemIs(a: int, b: nat)
    requires b > 0
    ensures Rem(a, b) == 0 <==> a % b == 0
    ensures AbsMod(a, b) == if a < 0 && a % b == 0 then b else a % b
  {
    if a < 0 {
      NegRem(a, b);
    }
  }

  /** Rounding down gives the largest multiple that is not above the sector,
      unless that is a negative multiple itself, which goes down by a grain. */
  lemma RoundDownIff(sector: int, grain: nat)
    requires grain > 0
    ensures RoundDown(sector, grain) % grain == 0 && RoundDown(sector, grain) <= sector
    ensures sector - RoundDown(sector, grain) < grain <==> sector >= 0 || sector % grain != 0
    ensures sector - RoundDown(sector, grain) <= grain
  {
    RemIs(sector, grain);
    assert sector == (sector / grain) * grain + sector % grain;
    if sector < 0 && sector % grain == 0 {
      assert sector - grain == (sector / grain - 1) * grain + 0;
      QuotientIs(sector - grain, grain, sector / grain - 1, 0);
    } else {
      assert sector - sector % grain == (sector / grain) * grain + 0;
      QuotientIs(sector - sector % grain, grain, sector / grain, 0);
    }
  }

  /** Rounding up gives the smallest multiple that is not below the sector. */
  lemma RoundUpIs(sector: int, grain: nat)
    requires grain > 0
    ensures RoundUp(sector, grain) % grain == 0 && sector <= RoundUp(sector, grain) < sector + grain
  {
    RemIs(sector, grain);
    RoundDownIff(sector, grain);
    MultipleSum(RoundDown(sector, grain), grain, grain, 1);
    hide RoundDown;
  }

  /** t + k * s is a multiple of d when t and s are. */
  lemma MultipleSum(t: int, s: int, d: nat, k: int)
    requires d > 0 && t % d == 0 && s % d == 0
    ensures (t + k * s) % d == 0
  {
    var p, q := t / d, s / d;
    assert t == p * d && s == q * d;
    assert t + k * s == (p + k * q) * d + 0 by {
      assert k * (q * d) == (k * q) * d;
    }
    QuotientIs(t + k * s, d, p + k * q, 0);
  }

  // ----- Intersecting -----

  datatype Triple = Triple(gcd: int, x: int, y: int)

  /** extended_euclid. */
  function Euclid(a: nat, b: nat): Triple
    decreases b
  {
    if b == 0 then Triple(a, 1, 0)
    else
      var t := Euclid(b, a % b);
      Triple(t.gcd, t.y, t.x - (a / b) * t.y)
  }

  /** It finds a common divisor, as a combination of both: the greatest one. */
  lemma {:induction false} EuclidIs(a: nat, b: nat)
    requires a > 0 || b > 0
    ensures var e := Euclid(a, b);
      e.gcd > 0 && a % e.gcd == 0 && b % e.gcd == 0 && e.x * a + e.y * b == e.gcd
    decreases b
  {
    if b > 0 {
      EuclidIs(b, a % b);
      var t, q, r := Euclid(b, a % b), a / b, a % b;
      assert a == r + q * b;
      MultipleSum(r, b, t.gcd, q);
      Recombined(t.x, t.y, q, b, r, a);
    } else {
      QuotientIs(a, a, 1, 0);
    }
  }

  lemma Recombined(x: int, y: int, q: int, b: int, r: int, a: int)
    requires a == r + q * b
    ensures y * a + (x - q * y) * b == x * b + y * r
  {
    assert y * a == y * r + y * (q * b);
    assert (x - q * y) * b == x * b - (q * y) * b;
    assert y * (q * b) == (q * y) * b;
  }

  /** ped_alignment_init. */
  function Init(offset: int, grain: nat): Alignment {
    Alignment(if grain > 0 then AbsMod(offset, grain) else offset, grain)
  }

  lemma InitAligned(offset: int, grain: nat, s: int)
    ensures Init(offset, grain).Aligned(s) <==> Alignment(offset, grain).Aligned(s)
  {
    if grain > 0 {
      RemIs(offset, grain);
      var o := AbsMod(offset, grain);
      assert (offset - o) % grain == 0 by {
        assert offset == (offset / grain) * grain + offset % grain;
        var q := if o == grain then offset / grain - 1 else offset / grain;
        assert offset - o == q * grain + 0;
        QuotientIs(offset - o, grain, q, 0);
      }
      if (s - o) % grain == 0 {
        MultipleSum(s - o, offset - o, grain, -1);
      }
      if (s - offset) % grain == 0 {
        MultipleSum(s - offset, offset - o, grain, 1);
      }
    }
  }

  const INT_MAX := 0x7fff_ffff

  /** Division as C does it, by a positive number. */
  function Div(a: int, b: nat): int
    requires b > 0
  {
    if a < 0 then -(-a / b) else a / b
  }

  lemma DivIs(a: int, b: nat)
    requires b > 0
    ensures Div(a, b) * b == a <==> a % b == 0
  {
    if a < 0 {
      var q, r := -a / b, -a % b;
      assert -a == q * b + r;
      assert (-q) * b == -(q * b);
      if r == 0 {
        QuotientIs(a, b, -q, 0);
      }
      if a % b == 0 {
        assert -a == (-(a / b)) * b + 0;
        QuotientIs(-a, b, -(a / b), 0);
      }
    }
  }

  /** The general case of ped_alignment_intersect. */
  function Shared(a: Alignment, b: Alignment): Option<Alignment>
    requires b.grain <= a.grain && a.grain > 0
  {
    EuclidIs(a.grain, b.grain);
    var e := Euclid(a.grain, b.grain);
    var delta := Div(b.offset - a.offset, e.gcd);
    var offset := a.offset + e.x * delta * a.grain;
    if offset != b.offset - e.y * delta * b.grain then None
    else Some(Init(offset, a.grain * b.grain / e.gcd))
  }

  /** ped_alignment_intersect. */
  function IntersectAligned(a: Alignment, b: Alignment): Option<Alignment>
    requires a.grain <= INT_MAX && b.grain <= INT_MAX
  {
    var (p, q) := if a.grain < b.grain then (b, a) else (a, b);
    if p.grain == 0 && q.grain == 0 then
      if p.offset == q.offset then Some(Init(p.offset, p.grain)) else None
    else Shared(p, q)
  }

  /** The combination of both grains passes exactly when the offsets differ by
      a multiple of the greatest common divisor. */
  lemma Consistent(a: Alignment, b: Alignment)
    requires b.grain <= a.grain && a.grain > 0
    ensures var e := Euclid(a.grain, b.grain);
      e.gcd > 0 && (Shared(a, b).Some? <==> (b.offset - a.offset) % e.gcd == 0)
  {
    EuclidIs(a.grain, b.grain);
    var e := Euclid(a.grain, b.grain);
    var gap := b.offset - a.offset;
    var delta := Div(gap, e.gcd);
    DivIs(gap, e.gcd);
    assert e.x * delta * a.grain + e.y * delta * b.grain == delta * e.gcd by {
      Scaled(e.x, e.y, a.grain, b.grain, delta);
    }
  }

  lemma Scaled(x: int, y: int, m: int, n: int, k: int)
    ensures x * k * m + y * k * n == k * (x * m + y * n)
  {
    assert x * k * m == k * (x * m) && y * k * n == k * (y * n);
    assert k * (x * m) + k * (y * n) == k * (x * m + y * n);
  }

  /** Multiples of both grains are the multiples of their product divided by
      the greatest common divisor. */
  lemma LeastMultiple(m: nat, n: nat, t: int)
    requires m > 0 && n > 0
    ensures var g := Euclid(m, n).gcd;
      g > 0 && m * n / g > 0 && (t % (m * n / g) == 0 <==> t % m == 0 && t % n == 0)
  {
    EuclidIs(m, n);
    var e := Euclid(m, n);
    hide Euclid;
    LeastFor(e.x, e.y, e.gcd, m, n, t);
  }

  lemma LeastFor(x: int, y: int, g: int, m: nat, n: nat, t: int)
    requires m > 0 && n > 0 && g > 0 && m % g == 0 && n % g == 0 && x * m + y * n == g
    ensures m * n / g > 0 && (t % (m * n / g) == 0 <==> t % m == 0 && t % n == 0)
  {
    var p, q := m / g, n / g;
    Exact(m, g);
    Exact(n, g);
    ProductParts(p, q, g, m, n);
    Coprime(x, y, p, q, g, m, n);
    LeastParts(x, y, p, q, m, n, m * n / g, t);
  }

  lemma Exact(m: int, g: int)
    requires g > 0 && m % g == 0
    ensures m == (m / g) * g
  {
  }

  lemma LeastParts(x: int, y: int, p: nat, q: nat, m: nat, n: nat, l: nat, t: int)
    requires m > 0 && n > 0 && l > 0 && l == q * m && l == p * n && x * p + y * q == 1
    ensures t % l == 0 <==> t % m == 0 && t % n == 0
  {
    if t % l == 0 {
      Through(t, l, q, m);
      Through(t, l, p, n);
    }
    if t % m == 0 && t % n == 0 {
      var i, j := t / m, t / n;
      assert t == i * m && t == j * n;
      BezoutMultiple(x, y, p, q, m, n, i, j, l, t);
      QuotientIs(t, l, x * j + y * i, 0);
    }
  }

  lemma ProductParts(p: int, q: int, g: int, m: nat, n: nat)
    requires m == p * g && n == q * g && m > 0 && n > 0 && g > 0
    ensures p > 0 && q > 0 && p * q * g > 0 && m * n / g == p * q * g
    ensures p * q * g == q * m && p * q * g == p * n
  {
    if p <= 0 {
      AtMost(p, g);
    }
    if q <= 0 {
      AtMost(q, g);
    }
    Positive(p, q);
    Positive(p * q, g);
    assert (p * g) * (q * g) == (p * q * g) * g;
    QuotientIs(m * n, g, p * q * g, 0);
  }

  lemma AtMost(k: int, g: int)
    requires k <= 0 && g > 0
    ensures k * g <= 0
  {
  }

  lemma Coprime(x: int, y: int, p: int, q: int, g: int, m: int, n: int)
    requires g > 0 && m == p * g && n == q * g && x * m + y * n == g
    ensures x * p + y * q == 1
  {
    assert x * (p * g) == (x * p) * g && y * (q * g) == (y * q) * g;
    assert (x * p) * g + (y * q) * g == (x * p + y * q) * g;
    Cancel(x * p + y * q, 1, g);
  }

  lemma Positive(a: int, b: int)
    requires a > 0 && b > 0
    ensures a * b > 0
  {
  }

  lemma Cancel(a: int, b: int, g: int)
    requires g > 0 && a * g == b * g
    ensures a == b
  {
    assert (a - b) * g == 0;
    if a > b {
      AtLeast(a - b, g);
    } else if a < b {
      AtLeast(b - a, g);
    }
  }

  lemma Through(t: int, l: nat, k: nat, m: nat)
    requires l > 0 && m > 0 && l == k * m && t % l == 0
    ensures t % m == 0
  {
    var i := t / l;
    assert t == i * l && i * (k * m) == (i * k) * m;
    QuotientIs(t, m, i * k, 0);
  }

  lemma BezoutMultiple(x: int, y: int, p: int, q: int, m: int, n: int, i: int, j: int, l: int, t: int)
    requires x * p + y * q == 1 && t == i * m && t == j * n && l == q * m && l == p * n
    ensures t == (x * j + y * i) * l + 0
  {
    assert t == (x * p + y * q) * t;
    assert (x * p + y * q) * t == (x * p) * (j * n) + (y * q) * (i * m);
    assert (x * p) * (j * n) == (x * j) * (p * n);
    assert (y * q) * (i * m) == (y * i) * (q * m);
    assert (x * j) * l + (y * i) * l == (x * j + y * i) * l;
  }

  /** The new alignment stands for exactly the sectors that satisfy both. */
  lemma SharedIsBoth(a: Alignment, b: Alignment, s: int)
    requires b.grain <= a.grain && a.grain > 0
    ensures a.Aligned(s) && b.Aligned(s) <==> Shared(a, b).Some? && Shared(a, b).value.Aligned(s)
  {
    Consistent(a, b);
    EuclidIs(a.grain, b.grain);
    var e, gap := Euclid(a.grain, b.grain), b.offset - a.offset;
    if a.Aligned(s) && b.Aligned(s) {
      FarApart(a, b, s, e.gcd);
    }
    if gap % e.gcd == 0 {
      SharedOffset(a, b, s);
    }
  }

  /** A common sector makes the offsets differ by a multiple. */
  lemma FarApart(a: Alignment, b: Alignment, s: int, d: nat)
    requires a.grain > 0 && d > 0 && a.grain % d == 0 && b.grain % d == 0
    requires a.Aligned(s) && b.Aligned(s)
    ensures (b.offset - a.offset) % d == 0
  {
    Multiple(s - a.offset, a.grain, d);
    if b.grain > 0 {
      Multiple(s - b.offset, b.grain, d);
      MultipleSum(s - a.offset, s - b.offset, d, -1);
    }
  }

  lemma Multiple(t: int, m: nat, d: nat)
    requires m > 0 && d > 0 && t % m == 0 && m % d == 0
    ensures t % d == 0
  {
    var k := t / m;
    assert t == 0 + k * m;
    MultipleSum(0, m, d, k);
  }

  /** When the offsets agree, the new offset satisfies both alignments. */
  lemma SharedOffset(a: Alignment, b: Alignment, s: int)
    requires b.grain <= a.grain && a.grain > 0
    requires Euclid(a.grain, b.grain).gcd > 0 && (b.offset - a.offset) % Euclid(a.grain, b.grain).gcd == 0
    ensures Shared(a, b).Some? && (a.Aligned(s) && b.Aligned(s) <==> Shared(a, b).value.Aligned(s))
  {
    Consistent(a, b);
    EuclidIs(a.grain, b.grain);
    var e := Euclid(a.grain, b.grain);
    var delta := Div(b.offset - a.offset, e.gcd);
    var o := a.offset + e.x * delta * a.grain;
    assert o == b.offset - e.y * delta * b.grain;
    assert Shared(a, b) == Some(Init(o, a.grain * b.grain / e.gcd));
    InitAligned(o, a.grain * b.grain / e.gcd, s);
    hide Euclid, Shared, Init, Div;
    SharedAt(a, b, o, e.x * delta, e.y * delta, e.gcd, s);
  }

  lemma SharedAt(a: Alignment, b: Alignment, o: int, i: int, j: int, g: int, s: int)
    requires a.grain > 0 && o == a.offset + i * a.grain && o == b.offset - j * b.grain
    requires g == Euclid(a.grain, b.grain).gcd && g > 0 && a.grain * b.grain / g >= 0
    ensures a.Aligned(s) && b.Aligned(s) <==> Alignment(o, a.grain * b.grain / g).Aligned(s)
  {
    hide Euclid;
    Shift(s, o, a, i);
    if b.grain == 0 {
      NoGrain(a.grain, g);
      NoGrain(j, 1);
    } else {
      assert -j * b.grain == -(j * b.grain);
      Shift(s, o, b, -j);
      LeastMultiple(a.grain, b.grain, s - o);
    }
  }

  lemma NoGrain(k: int, g: int)
    requires g > 0
    ensures k * 0 / g == 0 && k * 0 == 0
  {
  }

  /** A sector is aligned when its distance to an aligned one is a multiple. */
  lemma Shift(s: int, o: int, a: Alignment, k: int)
    requires a.grain > 0 && o == a.offset + k * a.grain
    ensures a.Aligned(s) <==> (s - o) % a.grain == 0
  {
    MultipleSum(0, a.grain, a.grain, k);
    if a.Aligned(s) {
      MultipleSum(s - a.offset, k * a.grain, a.grain, -1);
    }
    if (s - o) % a.grain == 0 {
      MultipleSum(s - o, k * a.grain, a.grain, 1);
    }
  }

  /** ped_alignment_intersect: a sector satisfies the result if and only if it
      satisfies both. */
  lemma IntersectIsBoth(a: Alignment, b: Alignment, s: int)
    requires a.grain <= INT_MAX && b.grain <= INT_MAX
    ensures a.Aligned(s) && b.Aligned(s) <==>
      IntersectAligned(a, b).Some? && IntersectAligned(a, b).value.Aligned(s)
  {
    hide Shared;
    if a.grain < b.grain {
      SharedIsBoth(b, a, s);
    } else if a.grain > 0 {
      SharedIsBoth(a, b, s);
    }
  }

  /** Without a result there is no common sector, and only then. */
  lemma IntersectNone(a: Alignment, b: Alignment)
    requires a.grain <= INT_MAX && b.grain <= INT_MAX
    ensures IntersectAligned(a, b) == None <==> forall s :: !(a.Aligned(s) && b.Aligned(s))
  {
    hide IntersectAligned;
    forall s
      ensures a.Aligned(s) && b.Aligned(s) <==>
        IntersectAligned(a, b).Some? && IntersectAligned(a, b).value.Aligned(s)
    {
      IntersectIsBoth(a, b, s);
    }
    if IntersectAligned(a, b).Some? {
      var r := IntersectAligned(a, b).value;
      assert r.Aligned(r.offset);
    }
  }
}

module Solver {
  import opened Common
  import opened Geometry
  import opened Alignments

  // ----- Aligning one sector -----

  /** _closest_inside_geometry; -1 when there is no sector. */
  function ClosestInside(al: Alignment, g: Geom, sector: int): int {
    if al.grain == 0 then
      if al.Aligned(sector) && g.Has(sector) then sector else -1
    else
      var up := if sector < g.start then sector + RoundUp(g.start - sector, al.grain) else sector;
      var down := if up > g.end then up - RoundUp(up - g.end, al.grain) else up;
      if g.Has(down) then down else -1
  }

  /** ped_alignment_align_up, within a geometry. */
  function AlignUp(al: Alignment, g: Geom, sector: int): int {
    ClosestInside(al, g,
                  if al.grain == 0 then al.offset else RoundUp(sector - al.offset, al.grain) + al.offset)
  }

  /** ped_alignment_align_down, within a geometry. */
  function AlignDown(al: Alignment, g: Geom, sector: int): int {
    ClosestInside(al, g,
                  if al.grain == 0 then al.offset else RoundDown(sector - al.offset, al.grain) + al.offset)
  }

  function Distance(a: int, b: int): nat {
    if a < b then b - a else a - b
  }

  function Closest(sector: int, a: int, b: int): int {
    if a == -1 then b
    else if b == -1 then a
    else if Distance(sector, a) < Distance(sector, b) then a
    else b
  }

  /** ped_alignment_align_nearest. */
  function AlignNearest(al: Alignment, g: Geom, sector: int): int {
    Closest(sector, AlignUp(al, g, sector), AlignDown(al, g, sector))
  }

  /** An aligned sector of g. */
  predicate Admits(al: Alignment, g: Geom, s: int) {
    g.Has(s) && al.Aligned(s)
  }

  /** r is what moving sector into g must come to: sector itself if it is
      there, else the first or the last aligned sector of g, if there is one. */
  ghost predicate IsClosest(al: Alignment, g: Geom, sector: int, r: int) {
    && (r == -1 <==> forall s :: !Admits(al, g, s))
    && (r != -1 ==>
          && Admits(al, g, r)
          && (g.Has(sector) ==> r == sector)
          && (sector < g.start ==> forall s :: Admits(al, g, s) ==> r <= s)
          && (sector > g.end ==> forall s :: Admits(al, g, s) ==> s <= r))
  }

  lemma AlignedApart(al: Alignment, s: int, t: int)
    requires al.grain > 0 && al.Aligned(s) && s < t
    ensures al.Aligned(t) <==> (t - s) % al.grain == 0
    ensures al.Aligned(t) ==> s + al.grain <= t
  {
    if al.Aligned(t) {
      MultipleSum(t - al.offset, s - al.offset, al.grain, -1);
      AtLeastGrain(t - s, al.grain);
    }
    if (t - s) % al.grain == 0 {
      MultipleSum(s - al.offset, t - s, al.grain, 1);
    }
  }

  lemma AtLeastGrain(d: int, grain: nat)
    requires d > 0 && grain > 0 && d % grain == 0
    ensures d >= grain
  {
  }

  /** Moving up into g reaches its first aligned sector, if there is one. */
  lemma FirstInside(al: Alignment, g: Geom, sector: int)
    requires al.grain > 0 && al.Aligned(sector) && sector < g.start
    ensures var up := sector + RoundUp(g.start - sector, al.grain);
      al.Aligned(up) && g.start <= up && forall s :: al.Aligned(s) && g.start <= s ==> up <= s
  {
    var up := sector + RoundUp(g.start - sector, al.grain);
    RoundUpIs(g.start - sector, al.grain);
    AlignedApart(al, sector, up);
    forall s | al.Aligned(s) && g.start <= s
      ensures up <= s
    {
      if s < up {
        AlignedApart(al, s, up);
      }
    }
  }

  lemma LastInside(al: Alignment, g: Geom, sector: int)
    requires al.grain > 0 && al.Aligned(sector) && sector > g.end
    ensures var down := sector - RoundUp(sector - g.end, al.grain);
      al.Aligned(down) && down <= g.end && forall s :: al.Aligned(s) && s <= g.end ==> s <= down
  {
    var down := sector - RoundUp(sector - g.end, al.grain);
    RoundUpIs(sector - g.end, al.grain);
    MultipleSum(sector - al.offset, sector - down, al.grain, -1);
    forall s | al.Aligned(s) && s <= g.end
      ensures s <= down
    {
      if down < s {
        AlignedApart(al, down, s);
      }
    }
  }

  lemma ClosestInsideIs(al: Alignment, g: Geom, sector: int)
    requires al.Aligned(sector) && g.Valid()
    ensures IsClosest(al, g, sector, ClosestInside(al, g, sector))
  {
    var r := ClosestInside(al, g, sector);
    if al.grain == 0 {
      assert g.Has(sector) ==> Admits(al, g, sector);
    } else {
      hide RoundUp;
      if sector < g.start {
        FirstInside(al, g, sector);
        var up := sector + RoundUp(g.start - sector, al.grain);
        if up > g.end {
          LastInside(al, g, up);
        } else {
          assert Admits(al, g, up);
        }
      } else if sector > g.end {
        LastInside(al, g, sector);
        var down := sector - RoundUp(sector - g.end, al.grain);
        assert g.Has(down) ==> Admits(al, g, down);
      } else {
        assert Admits(al, g, sector);
      }
    }
  }

  /** ped_alignment_align_nearest finds an aligned sector inside whenever there
      is one, and none is closer, although rounding down may go too far. */
  lemma AlignNearestIs(al: Alignment, g: Geom, sector: int)
    requires g.Valid()
    ensures var r := AlignNearest(al, g, sector);
      && (r == -1 <==> forall s :: !Admits(al, g, s))
      && (r != -1 ==>
            Admits(al, g, r) && forall s :: Admits(al, g, s) ==> Distance(sector, r) <= Distance(sector, s))
  {
    if al.grain == 0 {
      ClosestInsideIs(al, g, al.offset);
      OnlyOffset(al, g);
    } else {
      GrainNearestIs(al, g, sector);
    }
  }

  lemma GrainNearestIs(al: Alignment, g: Geom, sector: int)
    requires g.Valid() && al.grain > 0
    ensures var r := AlignNearest(al, g, sector);
      && (r == -1 <==> forall s :: !Admits(al, g, s))
      && (r != -1 ==>
            Admits(al, g, r) && forall s :: Admits(al, g, s) ==> Distance(sector, r) <= Distance(sector, s))
  {
    hide RoundUp, RoundDown, ClosestInside, Alignment.Aligned, IsClosest;
    var up, down := RoundUp(sector - al.offset, al.grain) + al.offset,
        RoundDown(sector - al.offset, al.grain) + al.offset;
    Rounded(al, sector);
    ClosestInsideIs(al, g, up);
    ClosestInsideIs(al, g, down);
    forall s | Admits(al, g, s)
      ensures up <= s || s <= down
    {
      Between(al, sector, up, down, s);
    }
    NearestTo(al, g, sector, up, down);
  }

  /** The aligned sectors that rounding gives. */
  lemma Rounded(al: Alignment, sector: int)
    requires al.grain > 0
    ensures var up := RoundUp(sector - al.offset, al.grain) + al.offset;
      al.Aligned(up) && sector <= up < sector + al.grain
    ensures var down := RoundDown(sector - al.offset, al.grain) + al.offset;
      && al.Aligned(down) && down <= sector
      && (sector - down < al.grain || (sector - down == al.grain && al.Aligned(sector)))
  {
    RoundUpIs(sector - al.offset, al.grain);
    RoundDownIff(sector - al.offset, al.grain);
  }

  lemma OnlyOffset(al: Alignment, g: Geom)
    requires al.grain == 0
    ensures forall s :: Admits(al, g, s) ==> s == al.offset
  {
  }

  lemma NearestTo(al: Alignment, g: Geom, sector: int, up: int, down: int)
    requires g.Valid() && forall s :: Admits(al, g, s) ==> up <= s || s <= down
    requires down <= sector <= up
    requires IsClosest(al, g, up, ClosestInside(al, g, up)) && IsClosest(al, g, down, ClosestInside(al, g, down))
    ensures var r := Closest(sector, ClosestInside(al, g, up), ClosestInside(al, g, down));
      && (r == -1 <==> forall s :: !Admits(al, g, s))
      && (r != -1 ==>
            Admits(al, g, r) && forall s :: Admits(al, g, s) ==> Distance(sector, r) <= Distance(sector, s))
  {
    hide ClosestInside;
    var u, d := ClosestInside(al, g, up), ClosestInside(al, g, down);
    forall s | Admits(al, g, s)
      ensures u != -1 && d != -1
      ensures Distance(sector, u) <= Distance(sector, s) || Distance(sector, d) <= Distance(sector, s)
    {
      NoCloser(al, g, sector, up, down, u, d, s);
    }
  }

  lemma NoCloser(al: Alignment, g: Geom, sector: int, up: int, down: int, u: int, d: int, s: int)
    requires g.Valid() && Admits(al, g, s) && (up <= s || s <= down) && down <= sector <= up
    requires IsClosest(al, g, up, u) && IsClosest(al, g, down, d)
    ensures u != -1 && d != -1
    ensures Distance(sector, u) <= Distance(sector, s) || Distance(sector, d) <= Distance(sector, s)
  {
    if up <= s {
      assert g.Has(up) || up < g.start;
    } else {
      assert g.Has(down) || down > g.end;
    }
  }

  /** No aligned sector lies between the two that rounding gives. */
  lemma Between(al: Alignment, sector: int, up: int, down: int, s: int)
    requires al.grain > 0 && al.Aligned(up) && al.Aligned(down) && al.Aligned(s)
    requires sector <= up < sector + al.grain && down <= sector
    requires sector - down < al.grain || (sector - down == al.grain && al.Aligned(sector))
    ensures up <= s || s <= down
  {
    if down < s < up {
      AlignedApart(al, down, s);
      AlignedApart(al, s, up);
      if al.Aligned(sector) && sector < up {
        AlignedApart(al, sector, up);
      }
    }
  }

  // ----- Solving a constraint -----

  /** What ped_constraint_init demands, of geometries that could be set. */
  predicate Formed(c: Constraint) {
    c.startRange.Valid() && c.endRange.Valid() && c.minSize > 0 && c.maxSize > 0
  }

  function FirstEnd(c: Constraint): int {
    AlignDown(c.endAlign, c.endRange, c.endRange.start)
  }

  function LastEnd(c: Constraint): int {
    AlignUp(c.endAlign, c.endRange, c.endRange.end)
  }

  /** The aligned ends lie between these two, which are aligned ends themselves. */
  lemma EndsBetween(c: Constraint)
    requires Formed(c)
    ensures FirstEnd(c) == -1 <==> forall s :: !Admits(c.endAlign, c.endRange, s)
    ensures LastEnd(c) == -1 <==> FirstEnd(c) == -1
    ensures FirstEnd(c) != -1 ==>
      Admits(c.endAlign, c.endRange, FirstEnd(c)) && Admits(c.endAlign, c.endRange, LastEnd(c))
    ensures forall s :: Admits(c.endAlign, c.endRange, s) ==> FirstEnd(c) <= s <= LastEnd(c)
  {
    FirstAndLast(c.endAlign, c.endRange);
  }

  lemma FirstAndLast(al: Alignment, g: Geom)
    requires g.Valid()
    ensures var first, last := AlignDown(al, g, g.start), AlignUp(al, g, g.end);
      && (first == -1 <==> forall s :: !Admits(al, g, s)) && (last == -1 <==> first == -1)
      && (first != -1 ==> Admits(al, g, first) && Admits(al, g, last))
      && (forall s :: Admits(al, g, s) ==> first <= s <= last)
  {
    if al.grain == 0 {
      ClosestInsideIs(al, g, al.offset);
      OnlyOffset(al, g);
    } else {
      hide AlignDown, AlignUp, IsClosest;
      var down := FromStart(al, g);
      var up := FromEnd(al, g);
      FromOutside(al, g, down, up, AlignDown(al, g, g.start), AlignUp(al, g, g.end));
    }
  }

  lemma FromStart(al: Alignment, g: Geom) returns (down: int)
    requires g.Valid() && al.grain > 0
    ensures down <= g.start && IsClosest(al, g, down, AlignDown(al, g, g.start))
  {
    hide RoundDown, RoundUp, ClosestInside, Alignment.Aligned, IsClosest;
    Rounded(al, g.start);
    down := RoundDown(g.start - al.offset, al.grain) + al.offset;
    ClosestInsideIs(al, g, down);
  }

  lemma FromEnd(al: Alignment, g: Geom) returns (up: int)
    requires g.Valid() && al.grain > 0
    ensures g.end <= up && IsClosest(al, g, up, AlignUp(al, g, g.end))
  {
    hide RoundDown, RoundUp, ClosestInside, Alignment.Aligned, IsClosest;
    Rounded(al, g.end);
    up := RoundUp(g.end - al.offset, al.grain) + al.offset;
    ClosestInsideIs(al, g, up);
  }

  lemma FromOutside(al: Alignment, g: Geom, down: int, up: int, first: int, last: int)
    requires down <= g.start <= g.end <= up && IsClosest(al, g, down, first) && IsClosest(al, g, up, last)
    ensures (first == -1 <==> forall s :: !Admits(al, g, s)) && (last == -1 <==> first == -1)
    ensures first != -1 ==> Admits(al, g, first) && Admits(al, g, last)
    ensures forall s :: Admits(al, g, s) ==> first <= s <= last
  {
  }

  /** _constraint_get_canonical_start_range. */
  function StartRange(c: Constraint): Option<Geom> {
    var first, last := FirstEnd(c), LastEnd(c);
    if c.minSize > c.maxSize || first == -1 || last == -1 || first > last || last < c.minSize then None
    else
      var lo := if first - c.maxSize + 1 < 0 then 0 else first - c.maxSize + 1;
      var hi := last - c.minSize + 1;
      if hi < 0 then None else Intersect(Geom(lo, hi), c.startRange)
  }

  /** _constraint_get_end_range, on a device of that length. */
  function EndRange(c: Constraint, length: int, start: int): Option<Geom> {
    if start + c.minSize - 1 > length - 1 then None
    else
      var end := start + c.maxSize - 1;
      Intersect(Geom(start + c.minSize - 1, if end > length - 1 then length - 1 else end), c.endRange)
  }

  /** ped_constraint_solve_nearest. */
  function Solve(c: Option<Constraint>, length: int, g: Geom): Option<Geom> {
    if c.None? || StartRange(c.value).None? then None
    else
      var start := AlignNearest(c.value.startAlign, StartRange(c.value).value, g.start);
      if start == -1 || EndRange(c.value, length, start).None? then None
      else
        var end := AlignNearest(c.value.endAlign, EndRange(c.value, length, start).value, g.end);
        if end == -1 then None else Some(Geom(start, end))
  }

  /** Two ranges that ped_geometry_init is not checked for are never empty. */
  lemma RangesValid(c: Constraint, length: int, start: int)
    requires Formed(c)
    ensures StartRange(c).Some? ==> StartRange(c).value.Valid() && c.minSize <= c.maxSize
    ensures StartRange(c).Some? ==> 0 <= FirstEnd(c) <= LastEnd(c) && FirstEnd(c) - c.maxSize <= LastEnd(c) - c.minSize
    ensures start >= 0 && EndRange(c, length, start).Some? ==> EndRange(c, length, start).value.Valid()
    ensures c.minSize <= c.maxSize && start + c.minSize - 1 <= length - 1 ==>
      start + c.minSize - 1 <= (if start + c.maxSize > length then length - 1 else start + c.maxSize - 1)
  {
    hide AlignDown, AlignUp;
    EndsBetween(c);
  }

  /** The assertion at the end of ped_constraint_solve_nearest holds, and the
      solution ends on the device. */
  lemma SolveSound(c: Constraint, length: int, g: Geom)
    requires Formed(c)
    ensures var h := Solve(Some(c), length, g);
      h.Some? ==> h.value.Valid() && c.IsSolution(h.value) && h.value.end < length
  {
    hide StartRange, AlignNearest, FirstEnd, LastEnd;
    RangesValid(c, length, 0);
    if StartRange(c).Some? {
      var r := StartRange(c).value;
      var start := AlignNearest(c.startAlign, r, g.start);
      AlignNearestIs(c.startAlign, r, g.start);
      StartsInside(c);
      if start != -1 && EndRange(c, length, start).Some? {
        RangesValid(c, length, start);
        AlignNearestIs(c.endAlign, EndRange(c, length, start).value, g.end);
      }
    }
  }

  lemma StartsInside(c: Constraint)
    ensures StartRange(c).Some? ==> StartRange(c).value.Inside(c.startRange)
  {
    hide FirstEnd, LastEnd;
  }

  /** Every solution starts in the canonical range, unless the last end is that
      of a shortest region from sector 0 on, which the code takes for too small. */
  lemma StartRangeHolds(c: Constraint, h: Geom)
    requires Formed(c) && h.Valid() && c.IsSolution(h)
    ensures (StartRange(c).Some? && StartRange(c).value.Has(h.start)) <==> LastEnd(c) >= c.minSize
    ensures LastEnd(c) >= c.minSize - 1
  {
    hide FirstEnd, LastEnd;
    EndsBetween(c);
    assert Admits(c.endAlign, c.endRange, h.end);
  }

  /** There is an end for that start. */
  ghost predicate HasEnd(c: Constraint, length: int, start: int) {
    EndRange(c, length, start).Some? && exists e :: Admits(c.endAlign, EndRange(c, length, start).value, e)
  }

  ghost predicate HasStart(c: Constraint) {
    StartRange(c).Some? && exists s :: Admits(c.startAlign, StartRange(c).value, s)
  }

  /** What the canonical range promises: every aligned start in it has an end. */
  ghost predicate EveryStartHasEnd(c: Constraint, length: int) {
    forall s :: StartRange(c).Some? && Admits(c.startAlign, StartRange(c).value, s) ==> HasEnd(c, length, s)
  }

  /** It is kept exactly when solving finds a region, wherever it is asked to
      look, as soon as the canonical range has an aligned start. */
  lemma SolveFindsIff(c: Constraint, length: int)
    requires Formed(c)
    ensures EveryStartHasEnd(c, length) <==>
      forall g :: Solve(Some(c), length, g).Some? <==> HasStart(c)
  {
    hide StartRange, EndRange, AlignNearest;
    forall g
      ensures Solve(Some(c), length, g).Some? ==> HasStart(c)
      ensures HasStart(c) && EveryStartHasEnd(c, length) ==> Solve(Some(c), length, g).Some?
    {
      SolveAt(c, length, g);
    }
    if forall g :: Solve(Some(c), length, g).Some? <==> HasStart(c) {
      forall s | StartRange(c).Some? && Admits(c.startAlign, StartRange(c).value, s)
        ensures HasEnd(c, length, s)
      {
        SolveFrom(c, length, s);
        assert Solve(Some(c), length, Geom(s, s)).Some? <==> HasStart(c);
      }
    }
  }

  /** Solving succeeds when its start has an end. */
  lemma SolveAt(c: Constraint, length: int, g: Geom)
    requires Formed(c)
    ensures StartRange(c).None? ==> Solve(Some(c), length, g).None?
    ensures StartRange(c).Some? ==>
      var s := AlignNearest(c.startAlign, StartRange(c).value, g.start);
      && (HasStart(c) <==> s != -1)
      && (s != -1 ==> Admits(c.startAlign, StartRange(c).value, s))
      && (Solve(Some(c), length, g).Some? <==> s != -1 && HasEnd(c, length, s))
  {
    hide StartRange, EndRange, AlignNearest;
    RangesValid(c, length, 0);
    if StartRange(c).Some? {
      var r := StartRange(c).value;
      var s := AlignNearest(c.startAlign, r, g.start);
      AlignNearestIs(c.startAlign, r, g.start);
      if s != -1 && EndRange(c, length, s).Some? {
        RangesValid(c, length, s);
        AlignNearestIs(c.endAlign, EndRange(c, length, s).value, g.end);
      }
    }
  }

  /** Asked for an aligned start of the canonical range, solving takes it. */
  lemma SolveFrom(c: Constraint, length: int, s: int)
    requires Formed(c) && StartRange(c).Some? && Admits(c.startAlign, StartRange(c).value, s)
    ensures Solve(Some(c), length, Geom(s, s)).Some? <==> HasEnd(c, length, s)
    ensures HasStart(c)
  {
    hide StartRange, EndRange, AlignNearest, Solve;
    RangesValid(c, length, 0);
    SolveAt(c, length, Geom(s, s));
    AlignNearestIs(c.startAlign, StartRange(c).value, s);
  }

  /** The promise is kept when the sizes leave room for a grain of the end. */
  lemma RoomyKeeps(c: Constraint, length: int)
    requires Formed(c) && c.endRange.end < length && c.endAlign.grain <= c.maxSize - c.minSize + 1
    ensures EveryStartHasEnd(c, length)
  {
    forall s | StartRange(c).Some? && Admits(c.startAlign, StartRange(c).value, s)
      ensures HasEnd(c, length, s)
    {
      RoomyEnd(c, length, s);
    }
  }

  lemma RoomyEnd(c: Constraint, length: int, s: int)
    requires Formed(c) && c.endRange.end < length && c.endAlign.grain <= c.maxSize - c.minSize + 1
    requires StartRange(c).Some? && StartRange(c).value.Has(s)
    ensures HasEnd(c, length, s)
  {
    hide FirstEnd, LastEnd, Alignment.Aligned;
    EndsBetween(c);
    var lo, hi := s + c.minSize - 1, s + c.maxSize - 1;
    var e := AlignedIn(c.endAlign, FirstEnd(c), LastEnd(c), lo, hi);
    assert EndRange(c, length, s).Some? && EndRange(c, length, s).value.Has(e);
    assert Admits(c.endAlign, EndRange(c, length, s).value, e);
  }

  /** A stretch of a grain's length that touches a row of aligned sectors meets
      one of them. */
  lemma AlignedIn(al: Alignment, first: int, last: int, lo: int, hi: int) returns (e: int)
    requires al.Aligned(first) && al.Aligned(last) && first <= last
    requires lo <= last && first <= hi && lo <= hi && al.grain <= hi - lo + 1
    ensures al.Aligned(e) && first <= e <= last && lo <= e <= hi
  {
    if first >= lo {
      e := first;
    } else if last <= hi {
      e := last;
    } else {
      Rounded(al, lo);
      e := RoundUp(lo - al.offset, al.grain) + al.offset;
    }
  }

  /** So then solving finds a region whenever there is one, but for the regions
      that are taken for too small. */
  lemma RoomyFinds(c: Constraint, length: int, g: Geom)
    requires Formed(c) && c.endRange.end < length && c.endAlign.grain <= c.maxSize - c.minSize + 1
    ensures Solve(Some(c), length, g).Some? <==>
      LastEnd(c) >= c.minSize && exists h: Geom :: h.Valid() && c.IsSolution(h)
  {
    hide StartRange, EndRange, AlignNearest, LastEnd, Solve;
    RoomyKeeps(c, length);
    SolveAt(c, length, g);
    if Solve(Some(c), length, g).Some? {
      SolveSound(c, length, g);
      StartRangeHolds(c, Solve(Some(c), length, g).value);
      RangeNeedsSize(c);
    }
    if h: Geom :| LastEnd(c) >= c.minSize && h.Valid() && c.IsSolution(h) {
      StartRangeHolds(c, h);
      assert Admits(c.startAlign, StartRange(c).value, h.start);
    }
  }

  lemma RangeNeedsSize(c: Constraint)
    ensures StartRange(c).Some? ==> LastEnd(c) >= c.minSize
  {
  }

  /** ped_constraint_solve_max. */
  function SolveMax(c: Option<Constraint>, length: int): Option<Geom> {
    Solve(c, length, Geom(0, length - 1))
  }

  /** Where the size is not limited, its result contains every solution, unless
      they are taken for too small. */
  lemma SolveMaxHolds(c: Constraint, length: int, h: Geom)
    requires Formed(c) && c.endRange.end < length <= c.maxSize && h.Valid() && c.IsSolution(h)
    ensures SolveMax(Some(c), length).Some? <==> LastEnd(c) >= c.minSize
    ensures SolveMax(Some(c), length).Some? ==> h.Inside(SolveMax(Some(c), length).value)
  {
    hide StartRange, AlignNearest, LastEnd, Alignment.Aligned;
    RangesValid(c, length, 0);
    RangeNeedsSize(c);
    StartRangeHolds(c, h);
    if LastEnd(c) >= c.minSize {
      var r := StartRange(c).value;
      assert Admits(c.startAlign, r, h.start);
      AlignNearestIs(c.startAlign, r, 0);
      var s := AlignNearest(c.startAlign, r, 0);
      RangesValid(c, length, s);
      var q := EndRange(c, length, s);
      assert q.Some? && Admits(c.endAlign, q.value, h.end);
      AlignNearestIs(c.endAlign, q.value, length - 1);
    }
  }

  // ----- Intersecting constraints -----

  /** ped_constraint_new_from_max. */
  function WithinOf(max: Geom): Constraint {
    Constraint(ANY, ANY, max, max, 1, max.Length())
  }

  predicate SmallGrains(c: Constraint) {
    c.startAlign.grain <= INT_MAX && c.endAlign.grain <= INT_MAX
  }

  /** ped_constraint_intersect. */
  function IntersectConstraints(a: Option<Constraint>, b: Option<Constraint>): Option<Constraint>
    requires (a.Some? ==> SmallGrains(a.value)) && (b.Some? ==> SmallGrains(b.value))
  {
    if a.None? || b.None? then None
    else
      var starts := IntersectAligned(a.value.startAlign, b.value.startAlign);
      var ends := IntersectAligned(a.value.endAlign, b.value.endAlign);
      var startRange := Intersect(a.value.startRange, b.value.startRange);
      var endRange := Intersect(a.value.endRange, b.value.endRange);
      if starts.None? || ends.None? || startRange.None? || endRange.None? then None
      else
        Some(Constraint(
            starts.value, ends.value, startRange.value, endRange.value,
            if a.value.minSize > b.value.minSize then a.value.minSize else b.value.minSize,
            if a.value.maxSize < b.value.maxSize then a.value.maxSize else b.value.maxSize))
  }

  /** A region satisfies the intersection if and only if it satisfies both. */
  lemma IntersectSolutions(a: Constraint, b: Constraint, g: Geom)
    requires SmallGrains(a) && SmallGrains(b)
    ensures var both := IntersectConstraints(Some(a), Some(b));
      a.IsSolution(g) && b.IsSolution(g) <==> both.Some? && both.value.IsSolution(g)
  {
    hide IntersectAligned, Alignment.Aligned;
    IntersectIsBoth(a.startAlign, b.startAlign, g.start);
    IntersectIsBoth(a.endAlign, b.endAlign, g.end);
    assert a.startRange.Has(g.start) && b.startRange.Has(g.start) <==>
        Intersect(a.startRange, b.startRange).Some? && Intersect(a.startRange, b.startRange).value.Has(g.start);
    assert a.endRange.Has(g.end) && b.endRange.Has(g.end) <==>
        Intersect(a.endRange, b.endRange).Some? && Intersect(a.endRange, b.endRange).value.Has(g.end);
  }

  /** An offset as ped_alignment_init leaves it, twice applied. */
  predicate Reduced(al: Alignment) {
    al.grain > 0 ==> 0 <= al.offset < al.grain
  }

  lemma EuclidOne(n: nat)
    requires n > 0
    ensures Euclid(n, 1) == Triple(1, 0, 1) && Euclid(1, 0) == Triple(1, 1, 0)
  {
    assert Euclid(1, n % 1) == Triple(1, 1, 0);
  }

  lemma AnyAligned(al: Alignment)
    requires Reduced(al) && al.grain <= INT_MAX
    ensures IntersectAligned(ANY, al) == Some(al)
  {
    hide Shared, Init;
    AlreadyReduced(al);
    if al.grain > 1 {
      AnySecond(al);
    } else if al.grain == 1 {
      AnySecond(ANY);
    } else {
      AnyFirst(al);
    }
  }

  lemma ByOne(n: int)
    ensures Div(n, 1) == n
  {
  }

  lemma AlreadyReduced(al: Alignment)
    requires Reduced(al)
    ensures Init(al.offset, al.grain) == al
  {
  }

  lemma AnySecond(al: Alignment)
    requires al.grain > 0
    ensures Shared(al, ANY) == Some(Init(al.offset, al.grain))
  {
    hide Euclid, Div, Init;
    EuclidOne(al.grain);
    ByOne(-al.offset);
    assert 0 * -al.offset * al.grain == 0;
  }

  lemma AnyFirst(al: Alignment)
    requires al.grain == 0
    ensures Shared(ANY, al) == Some(Init(al.offset, 0))
  {
    hide Euclid, Div, Init, Shared;
    EuclidOne(1);
    ByOne(al.offset);
    Product(al.offset);
    SharedBy(ANY, al, Triple(1, 1, 0), al.offset, al.offset, 0);
  }

  lemma Product(n: int)
    ensures 1 * n * 1 == n && 0 * n * 0 == 0
  {
  }

  lemma SharedBy(a: Alignment, b: Alignment, e: Triple, delta: int, o: int, grain: nat)
    requires b.grain <= a.grain && a.grain > 0 && Euclid(a.grain, b.grain) == e && e.gcd > 0
    requires Div(b.offset - a.offset, e.gcd) == delta && grain == a.grain * b.grain / e.gcd
    requires a.offset + e.x * delta * a.grain == o == b.offset - e.y * delta * b.grain
    ensures Shared(a, b) == Some(Init(o, grain))
  {
    hide Euclid, Div, Init;
  }

  /** Narrowing a constraint to a window is intersecting it with the constraint
      to stay inside. */
  lemma NarrowIsIntersect(window: Geom, c: Constraint)
    requires SmallGrains(c) && Reduced(c.startAlign) && Reduced(c.endAlign)
    ensures IntersectConstraints(Some(WithinOf(window)), Some(c)) == Narrow(Some(window), Some(c))
  {
    hide IntersectAligned;
    AnyAligned(c.startAlign);
    AnyAligned(c.endAlign);
  }

  // ----- Aligning a partition -----

  /** A region that solves the constraint already is what solving gives, unless
      it is taken for too small. */
  lemma SolveKeeps(c: Constraint, length: int, g: Geom)
    requires Formed(c) && g.Valid() && g.end < length && c.IsSolution(g)
    ensures LastEnd(c) >= c.minSize ==> Solve(Some(c), length, g) == Some(g)
    ensures LastEnd(c) < c.minSize ==> Solve(Some(c), length, g) == None
  {
    hide StartRange, AlignNearest, LastEnd, Alignment.Aligned;
    StartRangeHolds(c, g);
    RangeNeedsSize(c);
    if LastEnd(c) >= c.minSize {
      var r := StartRange(c).value;
      RangesValid(c, length, 0);
      RangesValid(c, length, g.start);
      NearestAt(c.startAlign, r, g.start, g.start);
      var q := EndRange(c, length, g.start);
      assert q.Some? && Admits(c.endAlign, q.value, g.end);
      NearestAt(c.endAlign, q.value, g.end, g.end);
    }
  }

  /** When a solution is missed, the start range has an aligned start no farther
      from the request than that of the solution, and no solution begins there. */
  lemma SolveMisses(c: Constraint, length: int, g: Geom, h: Geom)
    requires Formed(c) && h.Valid() && h.end < length && c.IsSolution(h) && LastEnd(c) >= c.minSize
    requires Solve(Some(c), length, g) == None
    ensures StartRange(c).Some? && exists s ::
      && Admits(c.startAlign, StartRange(c).value, s) && Distance(g.start, s) <= Distance(g.start, h.start)
      && forall e :: s <= e < length ==> !c.IsSolution(Geom(s, e))
  {
    hide StartRange, AlignNearest, LastEnd, Solve, Alignment.Aligned;
    StartRangeHolds(c, h);
    RangesValid(c, length, 0);
    var r := StartRange(c).value;
    assert Admits(c.startAlign, r, h.start);
    AlignNearestIs(c.startAlign, r, g.start);
    var s := AlignNearest(c.startAlign, r, g.start);
    SolveAt(c, length, g);
    forall e | s <= e < length
      ensures !c.IsSolution(Geom(s, e))
    {
      if c.IsSolution(Geom(s, e)) {
        SolutionHasEnd(c, length, Geom(s, e));
      }
    }
  }

  lemma SolutionHasEnd(c: Constraint, length: int, h: Geom)
    requires h.end < length && c.IsSolution(h)
    ensures HasEnd(c, length, h.start)
  {
    hide Alignment.Aligned;
    assert EndRange(c, length, h.start).Some? && Admits(c.endAlign, EndRange(c, length, h.start).value, h.end);
  }

  /** Among the solutions on the device none starts closer to the request, and
      none of those with the same start ends closer. */
  lemma SolveNearest(c: Constraint, length: int, g: Geom, s: Geom)
    requires Formed(c) && s.Valid() && s.end < length && c.IsSolution(s)
    ensures var h := Solve(Some(c), length, g);
      h.Some? ==>
        && Distance(g.start, h.value.start) <= Distance(g.start, s.start)
        && (h.value.start == s.start ==> Distance(g.end, h.value.end) <= Distance(g.end, s.end))
  {
    hide StartRange, AlignNearest, LastEnd, Alignment.Aligned;
    StartRangeHolds(c, s);
    RangeNeedsSize(c);
    RangesValid(c, length, 0);
    if Solve(Some(c), length, g).Some? {
      var r := StartRange(c).value;
      assert Admits(c.startAlign, r, s.start);
      AlignNearestIs(c.startAlign, r, g.start);
      var start := AlignNearest(c.startAlign, r, g.start);
      var q := EndRange(c, length, start).value;
      RangesValid(c, length, start);
      AlignNearestIs(c.endAlign, q, g.end);
      assert start == s.start ==> Admits(c.endAlign, q, s.end);
    }
  }

  /** _ped_partition_attempt_align: what a label that has a constraint of its own
      makes of the geometry g. */
  function AttemptAlign(external: Option<Constraint>, internal: Option<Constraint>, length: int, g: Geom): Option<Geom>
    requires (external.Some? ==> SmallGrains(external.value)) && (internal.Some? ==> SmallGrains(internal.value))
  {
    Solve(IntersectConstraints(external, internal), length, g)
  }

  lemma IntersectFormed(a: Constraint, b: Constraint)
    requires SmallGrains(a) && SmallGrains(b) && Formed(a) && Formed(b)
    ensures IntersectConstraints(Some(a), Some(b)).Some? ==> Formed(IntersectConstraints(Some(a), Some(b)).value)
  {
    hide IntersectAligned;
  }

  /** It solves both constraints, and ends on the device. */
  lemma AttemptSolves(a: Constraint, b: Constraint, length: int, g: Geom)
    requires SmallGrains(a) && SmallGrains(b) && Formed(a) && Formed(b)
    ensures var h := AttemptAlign(Some(a), Some(b), length, g);
      h.Some? ==> h.value.Valid() && a.IsSolution(h.value) && b.IsSolution(h.value) && h.value.end < length
  {
    hide IntersectConstraints, Constraint.IsSolution, Formed;
    IntersectFormed(a, b);
    var both := IntersectConstraints(Some(a), Some(b));
    if both.Some? && Solve(both, length, g).Some? {
      SolveSound(both.value, length, g);
      IntersectSolutions(a, b, Solve(both, length, g).value);
    }
  }

  /** And it is the nearest such region, by its start first. */
  lemma AttemptNearest(a: Constraint, b: Constraint, length: int, g: Geom, s: Geom)
    requires SmallGrains(a) && SmallGrains(b) && Formed(a) && Formed(b)
    requires s.Valid() && s.end < length && a.IsSolution(s) && b.IsSolution(s)
    ensures var h := AttemptAlign(Some(a), Some(b), length, g);
      h.Some? ==>
        && Distance(g.start, h.value.start) <= Distance(g.start, s.start)
        && (h.value.start == s.start ==> Distance(g.end, h.value.end) <= Distance(g.end, s.end))
  {
    hide IntersectConstraints, Constraint.IsSolution, Formed, Solve;
    IntersectFormed(a, b);
    IntersectSolutions(a, b, s);
    SolveNearest(IntersectConstraints(Some(a), Some(b)).value, length, g, s);
  }

  /** The sizes span a grain of the end alignment, the ends are on the device,
      and the last one is not below the smallest size. */
  predicate Roomy(c: Constraint, length: int) {
    c.endRange.end < length && c.endAlign.grain <= c.maxSize - c.minSize + 1 && LastEnd(c) >= c.minSize
  }

  /** It finds one whenever solving does. */
  lemma AttemptFinds(a: Constraint, b: Constraint, length: int, g: Geom)
    requires SmallGrains(a) && SmallGrains(b) && Formed(a) && Formed(b)
    ensures var both := IntersectConstraints(Some(a), Some(b));
      (both.Some? ==> Roomy(both.value, length)) ==>
        (AttemptAlign(Some(a), Some(b), length, g).Some? <==>
           exists s: Geom :: s.Valid() && a.IsSolution(s) && b.IsSolution(s))
  {
    hide IntersectConstraints, Constraint.IsSolution, Solve, LastEnd, Formed;
    IntersectFormed(a, b);
    var both := IntersectConstraints(Some(a), Some(b));
    forall s: Geom
      ensures a.IsSolution(s) && b.IsSolution(s) <==> both.Some? && both.value.IsSolution(s)
    {
      IntersectSolutions(a, b, s);
    }
    SolveNothing(length, g);
    if both.Some? && Roomy(both.value, length) {
      RoomyFinds(both.value, length, g);
    }
  }

  lemma SolveNothing(length: int, g: Geom)
    ensures Solve(None, length, g) == None
  {
  }

  /** Asked for exactly g, within a window, a label with a constraint of its own
      answers g if and only if g solves that, and is not taken for too small. */
  lemma AttemptExact(window: Geom, internal: Constraint, length: int, g: Geom)
    requires g.Valid() && g.end < length && g.Inside(window) && Formed(internal) && SmallGrains(internal)
    ensures var c := Narrow(Some(window), Some(ConstraintExact(g, length)));
      && c.Some? && SmallGrains(c.value)
      && (AttemptAlign(c, Some(internal), length, g) == Some(g) <==>
            internal.IsSolution(g) && g.end >= internal.minSize && g.end >= 1)
  {
    var c := Narrow(Some(window), Some(ConstraintExact(g, length)));
    assert ConstraintExact(g, length).IsSolution(g);
    NarrowSolutions(window, ConstraintExact(g, length), g);
    ExactParts(window, length, g);
    var both := IntersectConstraints(c, Some(internal));
    hide IntersectAligned, Constraint.IsSolution, Narrow, Solve, Intersect;
    IntersectSolutions(c.value, internal, g);
    IntersectFormed(c.value, internal);
    AttemptSolves(c.value, internal, length, g);
    if internal.IsSolution(g) {
      ExactEnd(both.value, g);
      SolveKeeps(both.value, length, g);
    }
  }

  lemma ExactParts(window: Geom, length: int, g: Geom)
    requires g.Valid() && g.end < length && g.Inside(window)
    ensures var c := Narrow(Some(window), Some(ConstraintExact(g, length)));
      && c.Some? && SmallGrains(c.value) && Formed(c.value)
      && c.value.endRange == Geom(g.end, g.end) && c.value.minSize == 1
  {
  }

  lemma ExactEnd(c: Constraint, g: Geom)
    requires Formed(c) && c.IsSolution(g) && c.endRange.Inside(Geom(g.end, g.end))
    ensures LastEnd(c) == g.end
  {
    hide FirstEnd, LastEnd;
    EndsAt(c, g.end, g.end);
  }

  // ----- What solving misses -----

  /** The whole of a hundred sectors solves the constraint to take them all, and
      is not found. */
  lemma WholeMissed()
    ensures var c := Constraint(ANY, ANY, Geom(0, 99), Geom(0, 99), 100, 100);
      && c.IsSolution(Geom(0, 99))
      && forall g :: Solve(Some(c), 100, g) == None
  {
    var c := Constraint(ANY, ANY, Geom(0, 99), Geom(0, 99), 100, 100);
    EndsBetween(c);
    assert LastEnd(c) < 100;
  }

  lemma EndsAt(c: Constraint, first: int, last: int)
    requires Formed(c) && Admits(c.endAlign, c.endRange, first) && Admits(c.endAlign, c.endRange, last)
    requires forall s :: Admits(c.endAlign, c.endRange, s) ==> first <= s <= last
    ensures FirstEnd(c) == first && LastEnd(c) == last
  {
    hide FirstEnd, LastEnd, Admits;
    EndsBetween(c);
  }

  /** One sector whose place is a multiple of ten. */
  const ON_TENS := Constraint(ANY, Alignment(0, 10), Geom(0, 20), Geom(0, 20), 1, 1)

  /** An aligned start without an end. */
  lemma StartMissed(c: Constraint, length: int, s: int)
    requires Formed(c) && StartRange(c).Some? && Admits(c.startAlign, StartRange(c).value, s) && !HasEnd(c, length, s)
    ensures Solve(Some(c), length, Geom(s, s)) == None && !EveryStartHasEnd(c, length)
  {
    hide StartRange, HasEnd, Solve, Admits;
    SolveFrom(c, length, s);
  }

  lemma TensRange(c: Constraint)
    requires c.startRange == c.endRange == Geom(0, 20) && c.minSize == c.maxSize == 1
    requires FirstEnd(c) == 0 && LastEnd(c) == 20
    ensures StartRange(c) == Some(Geom(0, 20)) && EndRange(c, 100, 5) == Some(Geom(5, 5))
  {
    hide FirstEnd, LastEnd;
  }

  lemma TensEnds()
    ensures FirstEnd(ON_TENS) == 0 && LastEnd(ON_TENS) == 20
  {
    var c := ON_TENS;
    assert Admits(c.endAlign, c.endRange, 0) && Admits(c.endAlign, c.endRange, 20);
    hide FirstEnd, LastEnd, Alignment.Aligned;
    EndsAt(c, 0, 20);
  }

  /** From 5..5 on nothing is found, although 10..10 solves the constraint. */
  lemma GrainMissed()
    ensures Solve(Some(ON_TENS), 100, Geom(5, 5)) == None && !EveryStartHasEnd(ON_TENS, 100)
    ensures ON_TENS.IsSolution(Geom(10, 10)) && LastEnd(ON_TENS) >= ON_TENS.minSize
  {
    TensEnds();
    hide FirstEnd, LastEnd, AlignNearest, EveryStartHasEnd, Solve, StartRange, EndRange;
    TensRange(ON_TENS);
    FiveHasNone();
    StartMissed(ON_TENS, 100, 5);
  }

  lemma FiveHasNone()
    requires EndRange(ON_TENS, 100, 5) == Some(Geom(5, 5))
    ensures !HasEnd(ON_TENS, 100, 5) && Admits(ON_TENS.startAlign, Geom(0, 20), 5)
  {
    hide EndRange;
  }

  /** Up to five sectors with an end like 2, 12, 22. */
  const UP_TO_FIVE := Constraint(ANY, Alignment(2, 10), Geom(0, 9), Geom(0, 19), 1, 5)

  lemma FiveEnds()
    ensures StartRange(UP_TO_FIVE) == Some(Geom(0, 9)) && EndRange(UP_TO_FIVE, 100, 0) == Some(Geom(0, 4))
  {
    EndsAt(UP_TO_FIVE, 2, 12);
    hide FirstEnd, LastEnd;
  }

  /** The largest region is not the one that is found: 0..2, not 8..12. */
  lemma LargerExists()
    ensures UP_TO_FIVE.IsSolution(Geom(8, 12)) && SolveMax(Some(UP_TO_FIVE), 100) == Some(Geom(0, 2))
  {
    FiveEnds();
    OnlyTwo();
    hide StartRange, EndRange, AlignNearest, Solve;
    NearestAt(UP_TO_FIVE.startAlign, Geom(0, 9), 0, 0);
    NearestAt(UP_TO_FIVE.endAlign, Geom(0, 4), 99, 2);
    SolvedAs(UP_TO_FIVE, 100, Geom(0, 99), Geom(0, 9), Geom(0, 4));
  }

  lemma SolvedAs(c: Constraint, length: int, g: Geom, r: Geom, q: Geom)
    requires StartRange(c) == Some(r) && AlignNearest(c.startAlign, r, g.start) != -1
    requires EndRange(c, length, AlignNearest(c.startAlign, r, g.start)) == Some(q)
    requires AlignNearest(c.endAlign, q, g.end) != -1
    ensures Solve(Some(c), length, g)
         == Some(Geom(AlignNearest(c.startAlign, r, g.start), AlignNearest(c.endAlign, q, g.end)))
  {
    hide StartRange, EndRange, AlignNearest;
  }

  lemma OnlyTwo()
    ensures Admits(Alignment(2, 10), Geom(0, 4), 2)
    ensures forall s :: Admits(Alignment(2, 10), Geom(0, 4), s) ==> s == 2
  {
  }

  /** The only candidate, or one that is asked for. */
  lemma NearestAt(al: Alignment, g: Geom, sector: int, r: int)
    requires g.Valid() && Admits(al, g, r) && (r == sector || forall s :: Admits(al, g, s) ==> s == r)
    ensures AlignNearest(al, g, sector) == r
  {
    hide AlignNearest;
    AlignNearestIs(al, g, sector);
  }
}
