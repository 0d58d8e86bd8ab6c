/** The rounding of a deadband to a float32: to the nearest there is, the even one of two. */
module FloatRounding {
  import opened Ints

  /** The spacings of the float32 numbers up to 128, from 2^-17 halving down to 2^-149. */
  function Grid(k: nat): (r: real)
    ensures r > 0.0
  {
    if k == 0 then 1.0 / 131072.0 else Grid(k - 1) / 2.0
  }

  function OnGrid(k: nat, m: int): real {
    m as real * Grid(k)
  }

  /** A float32 from 0 to 128: 24 bits of significand on one of the grids. */
  ghost predicate Float32(f: real) {
    exists k: nat, m: nat :: k <= 132 && m <= 0x100_0000 && f == OnGrid(k, m)
  }

  function Distance(a: real, b: real): real {
    if a < b then b - a else a - b
  }

  /** The spacing used is the finest grid on which 24 bits still reach past `v`. */
  lemma {:induction false} SpacingIs(v: real, top: real, steps: nat) returns (k: nat)
    requires steps <= 132 && top == OnGrid(132 - steps, 0x80_0000) && 0.0 <= v < top * 2.0
    ensures k <= 132 && Spacing(v, top, steps) == Grid(k) && v < OnGrid(k, 0x100_0000) && (k < 132 ==> v >= OnGrid(k, 0x80_0000))
    decreases steps
  {
    k := 132 - steps;
    if steps > 0 && v < top {
      k := SpacingIs(v, top / 2.0, steps - 1);
    }
  }

  /** A coarser grid is part of a finer one. */
  lemma {:induction false} Coarser(j: nat, k: nat, m: int) returns (n: int)
    requires j <= k
    ensures OnGrid(j, m) == OnGrid(k, n)
    decreases k - j
  {
    if j == k {
      n := m;
    } else {
      n := Coarser(j + 1, k, 2 * m);
    }
  }

  /** What 24 bits reach on a finer grid is no more than half of what they reach on a coarser one. */
  lemma {:induction false} Finer(j: nat, k: nat)
    requires k < j
    ensures OnGrid(j, 0x100_0000) <= OnGrid(k, 0x80_0000)
    decreases j
  {
    if k + 1 < j {
      Finer(j - 1, k);
    }
  }

  lemma NearestInteger(q: real, n: int)
    ensures Distance(Nearest(q) as real, q) <= Distance(n as real, q)
    ensures Distance(Nearest(q) as real, q) == Distance(n as real, q) && n != Nearest(q) ==> Nearest(q) % 2 == 0 && (n == Nearest(q) + 1 || n == Nearest(q) - 1)
  {
  }

  lemma Scaled(a: real, b: real, u: real, x: real, y: real)
    requires u > 0.0 && x == a * u && y == b * u
    ensures Distance(x, y) == Distance(a, b) * u
  {
    assert x - y == (a - b) * u && y - x == (b - a) * u;
    Product(a, b, u);
    Product(b, a, u);
  }

  lemma Product(a: real, b: real, u: real)
    requires u > 0.0
    ensures a <= b <==> a * u <= b * u
  {
    assert b * u - a * u == (b - a) * u;
  }

  lemma Divides(v: real, u: real)
    requires u > 0.0
    ensures v == (v / u) * u
  {
  }

  lemma ScaledOn(k: nat, a: int, q: real, v: real)
    requires v == q * Grid(k)
    ensures Distance(OnGrid(k, a), v) == Distance(a as real, q) * Grid(k)
  {
    hide Distance, Grid;
    Scaled(a as real, q, Grid(k), OnGrid(k, a), v);
  }

  /** Scaling keeps which of two is closer. */
  lemma Apart(a: int, b: int, q: real, k: nat, v: real)
    requires v == q * Grid(k)
    ensures Distance(a as real, q) <= Distance(b as real, q) <==> Distance(OnGrid(k, a), v) <= Distance(OnGrid(k, b), v)
  {
    hide Distance, Grid;
    ScaledOn(k, a, q, v);
    ScaledOn(k, b, q, v);
    Product(Distance(a as real, q), Distance(b as real, q), Grid(k));
  }

  /** Of the numbers on one grid, none is closer than the one rounded to. */
  lemma NearestOnGrid(v: real, k: nat, n: int)
    ensures var r := Nearest(v / Grid(k));
      && Distance(OnGrid(k, r), v) <= Distance(OnGrid(k, n), v)
      && (Distance(OnGrid(k, r), v) == Distance(OnGrid(k, n), v) && n != r ==> r % 2 == 0 && Distance(OnGrid(k, r), OnGrid(k, n)) == Grid(k))
  {
    hide Distance, Nearest, Grid;
    var (q, r) := (v / Grid(k), Nearest(v / Grid(k)));
    Divides(v, Grid(k));
    NearestInteger(q, n);
    Apart(r, n, q, k, v);
    Apart(n, r, q, k, v);
    ScaledOn(k, r, n as real, OnGrid(k, n));
    if n == r + 1 || n == r - 1 {
      OneApart(r, n);
    }
  }

  lemma OneApart(r: int, n: int)
    requires n == r + 1 || n == r - 1
    ensures Distance(r as real, n as real) == 1.0
  {
  }

  lemma SignificandFits(v: real, k: nat)
    requires 0.0 <= v < OnGrid(k, 0x100_0000)
    ensures 0 <= Nearest(v / Grid(k)) <= 0x100_0000
  {
    hide Grid, Nearest;
    var q := v / Grid(k);
    Divides(v, Grid(k));
    Product(0.0, q, Grid(k));
    Product(16777216.0, q, Grid(k));
    NearestFits(q);
  }

  lemma NearestFits(q: real)
    requires 0.0 <= q < 16777216.0
    ensures 0 <= Nearest(q) <= 0x100_0000
  {
  }

  lemma AtMost(j: nat, n: int)
    requires n <= 0x100_0000
    ensures OnGrid(j, n) <= OnGrid(j, 0x100_0000)
  {
    hide Grid;
    Product(n as real, 16777216.0, Grid(j));
  }

  /** `r` on grid k is as close to `v` as `f`, and closer unless it is even and next to it. */
  ghost predicate Closest(v: real, k: nat, r: int, f: real) {
    && Distance(OnGrid(k, r), v) <= Distance(f, v)
    && (Distance(OnGrid(k, r), v) == Distance(f, v) && f != OnGrid(k, r) ==> r % 2 == 0 && Distance(OnGrid(k, r), f) == Grid(k))
  }

  lemma ClosestOnCoarser(v: real, k: nat, j: nat, n: int)
    requires j <= k
    ensures Closest(v, k, Nearest(v / Grid(k)), OnGrid(j, n))
  {
    hide Distance, Nearest, Grid, OnGrid;
    var on := Coarser(j, k, n);
    NearestOnGrid(v, k, on);
  }

  lemma ClosestOnFiner(v: real, k: nat, j: nat, n: int)
    requires k < j && n <= 0x100_0000 && v >= OnGrid(k, 0x80_0000)
    ensures Closest(v, k, Nearest(v / Grid(k)), OnGrid(j, n))
  {
    hide Distance, Nearest, Grid, OnGrid;
    Finer(j, k);
    AtMost(j, n);
    NearestOnGrid(v, k, 0x80_0000);
    Below(OnGrid(j, n), OnGrid(k, 0x80_0000), v);
  }

  lemma Below(f: real, top: real, v: real)
    requires f <= top <= v
    ensures Distance(top, v) <= Distance(f, v) && (f < top ==> Distance(top, v) < Distance(f, v))
  {
  }

  lemma Lowest()
    ensures 64.0 == OnGrid(0, 0x80_0000)
  {
  }

  lemma RoundedOnGrid(v: real) returns (k: nat)
    requires 0.0 <= v < 128.0
    ensures k <= 132 && ToFloat32(v) == OnGrid(k, Nearest(v / Grid(k))) && 0 <= Nearest(v / Grid(k)) <= 0x100_0000
    ensures k < 132 ==> v >= OnGrid(k, 0x80_0000)
  {
    hide Nearest, Grid, Spacing;
    Lowest();
    k := SpacingIs(v, 64.0, 132);
    SignificandFits(v, k);
  }

  /**
   * No float32 is closer to `v` than the one it is rounded to; where another is just
   * as close, they are neighbours and the last bit of the one rounded to is even.
   */
  lemma RoundsToNearest(v: real, f: real)
    requires 0.0 <= v < 128.0 && Float32(f)
    ensures Float32(ToFloat32(v))
    ensures Distance(ToFloat32(v), v) <= Distance(f, v)
    ensures Distance(ToFloat32(v), v) == Distance(f, v) && f != ToFloat32(v) ==>
      exists k: nat, m: nat :: ToFloat32(v) == OnGrid(k, m) && m % 2 == 0 && Distance(OnGrid(k, m), f) == Grid(k)
  {
    hide Distance, Nearest, Grid, OnGrid, ToFloat32;
    var k := RoundedOnGrid(v);
    var j: nat, n: nat :| j <= 132 && n <= 0x100_0000 && f == OnGrid(j, n);
    if j <= k {
      ClosestOnCoarser(v, k, j, n);
    } else {
      ClosestOnFiner(v, k, j, n);
    }
  }
}
