/**
 * Multi-dimensional arrays of the OPC DA core (opcda/array.go and
 * opcda/safearray_windows.go). A SAFEARRAY is a map from index vectors to
 * elements, which answers an index out of its bounds with an error. Int32 index
 * arithmetic wraps, as the source's does.
 */
module SafeArrays {
  import opened Prelude
  import opened Ints

  const MAX: i32 := 0x7FFF_FFFF
  const MIN: i32 := -0x8000_0000

  datatype Dimension = Dimension(lower: i32, length: u32) {
    function Upper(): int { lower + length - 1 }

    /** What COM can describe: at least one element, and an upper bound that is an Int32. */
    predicate Valid() { length >= 1 && Upper() <= MAX }

    /** The upper bound as advanceArrayIndices computes it, in wrapping Int32 arithmetic. */
    function WrappedUpper(): i32 { Wrap32(Wrap32(lower + Wrap32(length)) - 1) }
  }

  /** The position of the k-th element along a dimension, and in what precedes it. */
  function Quot(k: nat, d: Dimension): nat
    requires d.Valid()
  {
    k / d.length
  }

  function Rem(k: nat, d: Dimension): (r: nat)
    requires d.Valid()
    ensures r < d.length
  {
    k % d.length
  }

  /** An Int32 increment. */
  function Bump(x: int): i32 { Wrap32(x + 1) }

  type Dimensions = seq<Dimension>
  type Indices = seq<i32>

  predicate AllValid(dims: Dimensions) {
    forall i :: 0 <= i < |dims| ==> dims[i].Valid()
  }

  lemma WrappedUpperIsUpper(d: Dimension)
    requires d.Valid()
    ensures d.WrappedUpper() == d.Upper()
  {
  }

  function Scale(m: nat, d: Dimension): nat { m * d.length }

  /** The number of elements, unbounded. */
  function Count(dims: Dimensions): nat {
    if dims == [] then 1 else Scale(Count(dims[..|dims| - 1]), dims[|dims| - 1])
  }

  /** The k-th index vector in the published order: the last dimension varies fastest. */
  function Digits(k: nat, dims: Dimensions): (r: seq<int>)
    requires AllValid(dims)
    ensures |r| == |dims|
    decreases |dims|
  {
    if dims == [] then []
    else
      var d := dims[|dims| - 1];
      Digits(Quot(k, d), dims[..|dims| - 1]) + [d.lower + Rem(k, d)]
  }

  function Rank(ix: seq<int>, dims: Dimensions): int
    requires |ix| == |dims|
  {
    if dims == [] then 0
    else
      var n := |dims| - 1;
      Place(Rank(ix[..n], dims[..n]), ix[n] - dims[n].lower, dims[n])
  }

  predicate InBounds(ix: seq<int>, dims: Dimensions) {
    |ix| == |dims| && forall i :: 0 <= i < |dims| ==> dims[i].lower <= ix[i] <= dims[i].Upper()
  }

  // ---------------------------------------------------------------- digits and ranks are inverse

  lemma DivMod(q: int, r: int, n: int)
    requires 0 <= r < n
    ensures (q * n + r) / n == q && (q * n + r) % n == r
  {
    var x := q * n + r;
    var (p, m) := (x / n, x % n);
    assert x == p * n + m;
    assert (q - p) * n == m - r && (p - q) * n == r - m;
    if q > p {
      AtLeastOnce(q - p, n);
    } else if q < p {
      AtLeastOnce(p - q, n);
    }
  }

  lemma AtLeastOnce(k: int, n: int)
    requires k >= 1 && n >= 1
    ensures k * n >= n
  {
  }

  lemma BelowProduct(q: int, r: int, n: int, m: int)
    requires 0 <= r < n
    ensures 0 <= q < m <==> 0 <= q * n + r < m * n
  {
    if q < m {
      assert (q + 1) * n <= m * n;
      assert q < 0 ==> (q + 1) * n <= 0;
      assert q >= 0 ==> q * n >= 0;
    } else {
      assert q * n >= m * n;
    }
  }

  /** A number put together from a quotient and a remainder, and taken apart again. */
  function Place(q: int, r: int, d: Dimension): int { q * d.length + r }

  lemma PlaceParts(q: int, r: int, d: Dimension, m: nat)
    requires d.Valid() && 0 <= r < d.length && 0 <= q < m
    ensures 0 <= Place(q, r, d) < Scale(m, d) && Quot(Place(q, r, d), d) == q && Rem(Place(q, r, d), d) == r
  {
    DivMod(q, r, d.length);
    BelowProduct(q, r, d.length, m);
  }

  lemma PartsPlace(k: nat, d: Dimension, m: nat)
    requires d.Valid() && k < Scale(m, d)
    ensures Quot(k, d) < m && Place(Quot(k, d), Rem(k, d), d) == k
  {
    assert k == (k / d.length) * d.length + k % d.length;
    BelowProduct(k / d.length, k % d.length, d.length, m);
  }

  /** Every in-bounds vector is the digits of its rank, and its rank counts below the number of elements. */
  lemma {:induction false} DigitsOfRank(ix: seq<int>, dims: Dimensions)
    requires AllValid(dims) && InBounds(ix, dims)
    ensures 0 <= Rank(ix, dims) < Count(dims) && Digits(Rank(ix, dims), dims) == ix
    decreases |dims|
  {
    hide Place, Quot, Rem, Scale, InBounds, Rank, Digits, Count;
    NoDimensions(ix);
    if dims != [] {
      var n := |dims| - 1;
      LastDimension(ix, dims);
      DigitsOfRank(ix[..n], dims[..n]);
      PlaceParts(Rank(ix[..n], dims[..n]), ix[n] - dims[n].lower, dims[n], Count(dims[..n]));
      DigitsLast(Rank(ix, dims), dims);
      assert ix == ix[..n] + [ix[n]];
    }
  }

  lemma NoDimensions(ix: seq<int>)
    ensures InBounds(ix, []) ==> ix == [] && Rank([], []) == 0 && Count([]) == 1 && Digits(0, []) == []
  {
  }

  lemma LastDimension(ix: seq<int>, dims: Dimensions)
    requires dims != [] && InBounds(ix, dims)
    ensures var n := |dims| - 1;
      && |ix| == |dims| && InBounds(ix[..n], dims[..n]) && 0 <= ix[n] - dims[n].lower < dims[n].length
      && Rank(ix, dims) == Place(Rank(ix[..n], dims[..n]), ix[n] - dims[n].lower, dims[n])
      && Count(dims) == Scale(Count(dims[..n]), dims[n])
  {
  }

  lemma DigitsLast(k: nat, dims: Dimensions)
    requires dims != [] && AllValid(dims)
    ensures var n := |dims| - 1; Digits(k, dims) == Digits(Quot(k, dims[n]), dims[..n]) + [dims[n].lower + Rem(k, dims[n])]
  {
  }

  lemma {:induction false} RankOfDigits(k: nat, dims: Dimensions)
    requires AllValid(dims) && k < Count(dims)
    ensures InBounds(Digits(k, dims), dims) && Rank(Digits(k, dims), dims) == k
    decreases |dims|
  {
    hide Place, Quot, Rem, Scale;
    if dims != [] {
      var n := |dims| - 1;
      PartsPlace(k, dims[n], Count(dims[..n]));
      RankOfDigits(Quot(k, dims[n]), dims[..n]);
      assert Digits(k, dims)[..n] == Digits(Quot(k, dims[n]), dims[..n]);
    }
  }

  // ---------------------------------------------------------------- the odometer

  /** advanceArrayIndices on values: increment the last position; when it passes its upper bound, reset it and carry. */
  function Advance(ix: Indices, dims: Dimensions): (r: Indices)
    requires |ix| == |dims|
    ensures |r| == |ix|
    decreases |dims|
  {
    if dims == [] then []
    else
      var n := |dims| - 1;
      var next := Bump(ix[n]);
      if next <= dims[n].WrappedUpper() then ix[..n] + [next]
      else Advance(ix[..n], dims[..n]) + [dims[n].lower]
  }

  function Lowers(dims: Dimensions): (r: Indices)
    ensures |r| == |dims|
  {
    if dims == [] then [] else Lowers(dims[..|dims| - 1]) + [dims[|dims| - 1].lower]
  }

  /** The vector after k steps from the lower bounds. */
  function Iterate(k: nat, dims: Dimensions): (r: Indices)
    ensures |r| == |dims|
  {
    if k == 0 then Lowers(dims) else Advance(Iterate(k - 1, dims), dims)
  }

  /** The loop of the source, in place. */
  method AdvanceInPlace(indices: array<i32>, dims: Dimensions)
    requires indices.Length == |dims|
    modifies indices
    ensures indices[..] == Advance(old(indices[..]), dims)
  {
    hide *;
    ghost var was: Indices := indices[..];
    var position := |dims| - 1;
    MidwayStart(was, dims);
    while position >= 0
      invariant -1 <= position < |dims| && Midway(was, dims, position, indices[..])
    {
      ghost var before: Indices := indices[..];
      MidwayStep(was, dims, position, before);
      indices[position] := Bump(indices[position]);
      assert indices[..] == before[position := indices[position]];
      if indices[position] <= dims[position].WrappedUpper() {
        return;
      }
      indices[position] := dims[position].lower;
      assert indices[..] == before[position := indices[position]];
      position := position - 1;
    }
    MidwayEnd(was, dims, indices[..]);
  }

  /** With the positions after `position` reset, what is left to do is to advance those up to it. */
  ghost predicate Midway(was: Indices, dims: Dimensions, position: int, now: Indices) {
    && |was| == |dims| == |now| && -1 <= position < |dims| && now[..position + 1] == was[..position + 1]
    && Advance(was, dims) == Advance(was[..position + 1], dims[..position + 1]) + now[position + 1..]
  }

  lemma MidwayStart(was: Indices, dims: Dimensions)
    requires |was| == |dims|
    ensures Midway(was, dims, |dims| - 1, was)
  {
    assert was[..|dims|] == was && dims[..|dims|] == dims && was[|dims|..] == [];
  }

  lemma MidwayStep(was: Indices, dims: Dimensions, p: nat, now: Indices)
    requires Midway(was, dims, p, now)
    ensures p < |now| == |dims|
    ensures Bump(now[p]) <= dims[p].WrappedUpper() ==> Advance(was, dims) == now[p := Bump(now[p])]
    ensures Bump(now[p]) > dims[p].WrappedUpper() ==> Midway(was, dims, p - 1, now[p := dims[p].lower])
  {
    hide Advance, Bump, Dimension.WrappedUpper;
    assert was[p] == was[..p + 1][p] == now[..p + 1][p] == now[p];
    AdvanceStep(was, dims, p);
    assert was[..p] == was[..p + 1][..p] == now[..p + 1][..p] == now[..p];
    if Bump(now[p]) <= dims[p].WrappedUpper() {
      assert now[p := Bump(now[p])] == now[..p] + [Bump(now[p])] + now[p + 1..];
    } else {
      var next := now[p := dims[p].lower];
      assert next[p..] == [dims[p].lower] + now[p + 1..];
      assert next[..p] == now[..p];
    }
  }

  lemma MidwayEnd(was: Indices, dims: Dimensions, now: Indices)
    requires Midway(was, dims, -1, now)
    ensures Advance(was, dims) == now
  {
    assert was[..0] == [] && dims[..0] == [] && now[0..] == now;
  }

  lemma AdvanceStep(ix: Indices, dims: Dimensions, p: nat)
    requires |ix| == |dims| && p < |dims|
    ensures Advance(ix[..p + 1], dims[..p + 1])
      == if Bump(ix[p]) <= dims[p].WrappedUpper() then ix[..p] + [Bump(ix[p])] else Advance(ix[..p], dims[..p]) + [dims[p].lower]
  {
    assert ix[..p + 1][..p] == ix[..p] && dims[..p + 1][..p] == dims[..p];
  }

  lemma SuccessorDigits(k: nat, d: Dimension)
    requires d.Valid()
    ensures Rem(k, d) + 1 < d.length ==> Quot(k + 1, d) == Quot(k, d) && Rem(k + 1, d) == Rem(k, d) + 1
    ensures Rem(k, d) + 1 == d.length ==> Quot(k + 1, d) == Quot(k, d) + 1 && Rem(k + 1, d) == 0
  {
    var (q, r) := (k / d.length, k % d.length);
    assert k == q * d.length + r;
    if r + 1 < d.length {
      DivMod(q, r + 1, d.length);
    } else {
      assert k + 1 == (q + 1) * d.length + 0;
      DivMod(q + 1, 0, d.length);
    }
  }

  lemma ZeroDigits(d: Dimension)
    requires d.Valid()
    ensures Quot(0, d) == 0 && Rem(0, d) == 0
  {
  }

  /** One step, seen from the last position of a dimension that does not end at the largest Int32. */
  lemma AdvanceLast(ix: Indices, dims: Dimensions)
    requires AllValid(dims) && dims != [] && |ix| == |dims|
    requires var d := dims[|dims| - 1]; d.lower <= ix[|dims| - 1] <= d.Upper() && ix[|dims| - 1] < MAX
    ensures var n := |dims| - 1;
      Advance(ix, dims) == if ix[n] < dims[n].Upper() then ix[..n] + [ix[n] + 1] else Advance(ix[..n], dims[..n]) + [dims[n].lower]
  {
    WrappedUpperIsUpper(dims[|dims| - 1]);
  }

  /** A dimension whose upper bound is below the largest Int32 turns over properly, whatever stands before it. */
  lemma {:induction false} IterateLast(k: nat, dims: Dimensions)
    requires AllValid(dims) && dims != [] && dims[|dims| - 1].Upper() < MAX
    ensures var n := |dims| - 1; var d := dims[n];
      Iterate(k, dims) == Iterate(Quot(k, d), dims[..n]) + [d.lower + Rem(k, d)]
  {
    hide Quot, Rem, Lowers, Advance;
    var n := |dims| - 1;
    var d := dims[n];
    if k == 0 {
      ZeroDigits(d);
      LowersLast(dims);
    } else {
      IterateLast(k - 1, dims);
      SuccessorDigits(k - 1, d);
      var ix := Iterate(k - 1, dims);
      assert ix[..n] == Iterate(Quot(k - 1, d), dims[..n]);
      AdvanceLast(ix, dims);
    }
  }

  lemma LowersLast(dims: Dimensions)
    requires dims != []
    ensures Lowers(dims) == Lowers(dims[..|dims| - 1]) + [dims[|dims| - 1].lower]
  {
  }

  /** Until the last dimension first turns over, only it moves. */
  lemma {:induction false} IterateFirstRow(k: nat, dims: Dimensions)
    requires AllValid(dims) && dims != [] && k < dims[|dims| - 1].length
    ensures Iterate(k, dims) == Lowers(dims[..|dims| - 1]) + [dims[|dims| - 1].lower + k]
  {
    hide Lowers, Advance;
    if k == 0 {
      LowersLast(dims);
    } else {
      IterateFirstRow(k - 1, dims);
      AdvanceLast(Iterate(k - 1, dims), dims);
    }
  }

  /** The index vectors visited are the published order, element by element. */
  ghost predicate Enumerated(dims: Dimensions)
    requires AllValid(dims)
  {
    forall k: nat :: k < Count(dims) ==> Iterate(k, dims) == Digits(k, dims)
  }

  /** No dimension that ends at the largest Int32 has one before it with more than one element. */
  predicate NoOverrun(dims: Dimensions) {
    forall p, q :: 0 <= q < p < |dims| && dims[p].Upper() == MAX ==> dims[q].length == 1
  }

  lemma {:induction false} CountPositive(dims: Dimensions)
    requires AllValid(dims)
    ensures Count(dims) >= 1
  {
    if dims != [] {
      CountPositive(dims[..|dims| - 1]);
      AtLeastOnce(Count(dims[..|dims| - 1]), dims[|dims| - 1].length);
    }
  }

  /** One element in all, exactly when every dimension has one. */
  lemma {:induction false} CountIsOne(dims: Dimensions)
    requires AllValid(dims)
    ensures Count(dims) == 1 <==> forall q :: 0 <= q < |dims| ==> dims[q].length == 1
  {
    if dims != [] {
      var n := |dims| - 1;
      CountIsOne(dims[..n]);
      CountPositive(dims[..n]);
      ProductIsOne(Count(dims[..n]), dims[n].length);
      assert forall q :: 0 <= q < n ==> dims[..n][q] == dims[q];
    }
  }

  lemma ProductIsOne(a: int, b: int)
    requires a >= 1 && b >= 1
    ensures a * b == 1 <==> a == 1 && b == 1
    ensures a > 1 ==> a * b > b
  {
  }

  lemma NoOverrunLast(dims: Dimensions)
    requires AllValid(dims) && dims != []
    ensures var n := |dims| - 1;
      NoOverrun(dims) <==> NoOverrun(dims[..n]) && (dims[n].Upper() == MAX ==> Count(dims[..n]) == 1)
  {
    var n := |dims| - 1;
    CountIsOne(dims[..n]);
    assert forall q :: 0 <= q < n ==> dims[..n][q] == dims[q];
  }

  lemma {:induction false} LowersAreDigits(dims: Dimensions)
    requires AllValid(dims)
    ensures Digits(0, dims) == Lowers(dims)
  {
    hide Quot, Rem;
    if dims != [] {
      ZeroDigits(dims[|dims| - 1]);
      LowersAreDigits(dims[..|dims| - 1]);
    }
  }

  /** With a last dimension that turns over properly, the whole is enumerated exactly if what precedes it is. */
  lemma EnumeratedBefore(dims: Dimensions)
    requires AllValid(dims) && dims != [] && dims[|dims| - 1].Upper() < MAX
    ensures Enumerated(dims) <==> Enumerated(dims[..|dims| - 1])
  {
    hide Quot, Rem, Place, Iterate, Scale;
    var n := |dims| - 1;
    var (d, before) := (dims[n], dims[..n]);
    if Enumerated(before) {
      forall k: nat | k < Count(dims) ensures Iterate(k, dims) == Digits(k, dims) {
        PartsPlace(k, d, Count(before));
        IterateLast(k, dims);
      }
    }
    if Enumerated(dims) {
      forall k: nat | k < Count(before) ensures Iterate(k, before) == Digits(k, before) {
        PlaceParts(k, 0, d, Count(before));
        var j := Place(k, 0, d);
        IterateLast(j, dims);
        assert Iterate(k, before) == Iterate(j, dims)[..n];
        assert Digits(k, before) == Digits(j, dims)[..n];
      }
    }
  }

  /** A last dimension that ends at the largest Int32 is enumerated exactly when nothing precedes it. */
  lemma EnumeratedToTheEnd(dims: Dimensions)
    requires AllValid(dims) && dims != [] && dims[|dims| - 1].Upper() == MAX
    ensures Enumerated(dims) <==> Count(dims[..|dims| - 1]) == 1
  {
    hide Iterate, Place;
    var n := |dims| - 1;
    var (d, before) := (dims[n], dims[..n]);
    CountPositive(before);
    ProductIsOne(Count(before), d.length);
    LowersAreDigits(before);
    if Count(before) == 1 {
      forall k: nat | k < Count(dims) ensures Iterate(k, dims) == Digits(k, dims) {
        IterateFirstRow(k, dims);
        DivMod(0, k, d.length);
      }
    } else {
      OverrunLeavesTheArray(dims);
      assert d.length < Count(dims);
      assert Digits(d.length, dims)[n] == d.lower + Rem(d.length, d) >= d.lower;
    }
  }

  /** At the end of the Int32 range the increment wraps to its beginning, which is below every such dimension. */
  lemma OverrunLeavesTheArray(dims: Dimensions)
    requires AllValid(dims) && dims != [] && dims[|dims| - 1].Upper() == MAX
    ensures Iterate(dims[|dims| - 1].length, dims)[|dims| - 1] == MIN < dims[|dims| - 1].lower
  {
    hide Bump, Dimension.WrappedUpper, Lowers;
    var d := dims[|dims| - 1];
    IterateFirstRow(d.length - 1, dims);
    BumpWraps();
    WrappedUpperIsUpper(d);
    assert Iterate(d.length - 1, dims)[|dims| - 1] == MAX;
  }

  lemma BumpWraps()
    ensures Bump(MAX) == MIN
  {
  }

  /**
   * The steps of advanceArrayIndices visit the elements in the published order,
   * each exactly once, if and only if no dimension that ends at 2^31-1 has one
   * before it with more than one element.
   */
  lemma {:induction false} OdometerExactly(dims: Dimensions)
    requires AllValid(dims)
    ensures Enumerated(dims) <==> NoOverrun(dims)
    decreases |dims|
  {
    if dims == [] {
      assert Enumerated(dims);
    } else {
      var n := |dims| - 1;
      NoOverrunLast(dims);
      if dims[n].Upper() < MAX {
        EnumeratedBefore(dims);
        OdometerExactly(dims[..n]);
      } else {
        EnumeratedToTheEnd(dims);
        if Count(dims[..n]) == 1 {
          CountIsOne(dims[..n]);
        }
      }
    }
  }

  /** After the last element the indices are back at the lower bounds, when every upper bound is below 2^31-1. */
  lemma {:induction false} OdometerWraps(dims: Dimensions)
    requires AllValid(dims) && forall i :: 0 <= i < |dims| ==> dims[i].Upper() < MAX
    ensures Iterate(Count(dims), dims) == Lowers(dims)
    decreases |dims|
  {
    if dims == [] {
      assert Iterate(1, dims) == [];
    } else {
      var n := |dims| - 1;
      OdometerWraps(dims[..n]);
      PlaceOf(Count(dims[..n]), dims[n]);
      IterateLast(Count(dims), dims);
    }
  }

  lemma PlaceOf(q: nat, d: Dimension)
    requires d.Valid()
    ensures Quot(q * d.length, d) == q && Rem(q * d.length, d) == 0
  {
    DivMod(q, 0, d.length);
  }

  /** Exactly once: of all in-bounds vectors, each is reached at one step before the last, and at no other. */
  lemma VisitedExactlyOnce(dims: Dimensions, ix: Indices)
    requires AllValid(dims) && NoOverrun(dims) && InBounds(ix, dims)
    ensures 0 <= Rank(ix, dims) < Count(dims)
    ensures forall k: nat :: k < Count(dims) ==> (Iterate(k, dims) == ix <==> k == Rank(ix, dims))
  {
    OdometerExactly(dims);
    DigitsOfRank(ix, dims);
    forall k: nat | k < Count(dims) ensures Iterate(k, dims) == ix <==> k == Rank(ix, dims) {
      RankOfDigits(k, dims);
    }
  }

  // ---------------------------------------------------------------- encode and decode

  /** What SafeArrayPutElement and SafeArrayGetElement work on. */
  type SafeArray<T> = map<seq<int>, T>

  /** The SAFEARRAY a flat array describes, by rank and without stepping. */
  ghost predicate Holds<T(!new)>(a: SafeArray<T>, dims: Dimensions, elements: seq<T>, n: nat)
    requires AllValid(dims) && n <= Count(dims) && n <= |elements|
  {
    && (forall k: nat :: k < n ==> Digits(k, dims) in a && a[Digits(k, dims)] == elements[k])
    && (forall ix <- a :: exists k: nat :: k < n && ix == Digits(k, dims))
  }

  lemma PrefixInBounds(ix: seq<int>, dims: Dimensions, n: nat)
    requires n <= |ix| == |dims|
    ensures InBounds(ix, dims) ==> InBounds(ix[..n], dims[..n])
  {
  }

  lemma IterateNext(k: nat, dims: Dimensions)
    ensures Iterate(k + 1, dims) == Advance(Iterate(k, dims), dims) && Iterate(0, dims) == Lowers(dims)
  {
  }

  lemma HoldsNothing<T(!new)>(dims: Dimensions, elements: seq<T>)
    requires AllValid(dims)
    ensures Holds(map[], dims, elements, 0)
  {
  }

  lemma FirstFailure(dims: Dimensions)
    requires AllValid(dims) && !NoOverrun(dims)
    ensures exists k: nat :: k < Count(dims) && !InBounds(Iterate(k, dims), dims)
    decreases |dims|
  {
    var n := |dims| - 1;
    NoOverrunLast(dims);
    if dims[n].Upper() == MAX {
      if Count(dims[..n]) > 1 {
        OverrunLeavesTheArray(dims);
        ProductIsOne(Count(dims[..n]), dims[n].length);
        assert !InBounds(Iterate(dims[n].length, dims), dims);
      } else {
        CountPositive(dims[..n]);
        CountIsOne(dims[..n]);
        assert false;
      }
    } else {
      FirstFailure(dims[..n]);
      var k: nat :| k < Count(dims[..n]) && !InBounds(Iterate(k, dims[..n]), dims[..n]);
      var j := Place(k, 0, dims[n]);
      PlaceParts(k, 0, dims[n], Count(dims[..n]));
      IterateLast(j, dims);
      assert Iterate(j, dims)[..n] == Iterate(k, dims[..n]);
      PrefixInBounds(Iterate(j, dims), dims, n);
    }
  }

  lemma StaysInBounds(dims: Dimensions, k: nat)
    requires AllValid(dims) && NoOverrun(dims) && k < Count(dims)
    ensures InBounds(Iterate(k, dims), dims) && Iterate(k, dims) == Digits(k, dims)
  {
    OdometerExactly(dims);
    RankOfDigits(k, dims);
  }

  // A dimension whose upper bound is past an Int32: a shape Validate accepts and COM cannot index.

  lemma WrappedBelow(d: Dimension)
    requires d.length >= 1 && d.Upper() > MAX
    ensures d.WrappedUpper() < d.lower && d.length >= 2
  {
  }

  /** Such a dimension never moves from its lower bound, as long as that is not the largest Int32 itself. */
  lemma {:induction false} StuckStep(ix: Indices, dims: Dimensions, p: nat)
    requires |ix| == |dims| && p < |dims| && ix[p] == dims[p].lower < MAX && dims[p].length >= 1 && dims[p].Upper() > MAX
    ensures Advance(ix, dims)[p] == dims[p].lower
    decreases |dims|
  {
    hide Bump, Dimension.WrappedUpper;
    var n := |dims| - 1;
    if p == n {
      WrappedBelow(dims[p]);
      BumpAdds(ix[p]);
    } else {
      StuckStep(ix[..n], dims[..n], p);
    }
  }

  lemma BumpAdds(x: i32)
    requires x < MAX
    ensures Bump(x) == (x as int) + 1
  {
  }

  lemma {:induction false} Stuck(k: nat, dims: Dimensions, p: nat)
    requires p < |dims| && dims[p].lower < MAX && dims[p].length >= 1 && dims[p].Upper() > MAX
    ensures Iterate(k, dims)[p] == dims[p].lower
  {
    if k == 0 {
      LowersByIndex(dims);
    } else {
      Stuck(k - 1, dims, p);
      StuckStep(Iterate(k - 1, dims), dims, p);
    }
  }

  /** Every vector the odometer can put an element at is at the lower bound of such a dimension. */
  lemma VisitedAtLower(k: nat, dims: Dimensions, p: nat)
    requires p < |dims| && dims[p].length >= 1 && dims[p].Upper() > MAX && InBounds(Iterate(k, dims), dims)
    ensures Iterate(k, dims)[p] == dims[p].lower
  {
    if dims[p].lower < MAX {
      Stuck(k, dims, p);
    }
  }

  /** A vector one past the lower bound there: in bounds, and never visited. */
  function Beside(dims: Dimensions, p: nat): seq<int>
    requires p < |dims|
  {
    seq(|dims|, i requires 0 <= i < |dims| => if i == p then dims[i].lower + 1 else dims[i].lower as int)
  }

  lemma BesideIsInBounds(dims: Dimensions, p: nat)
    requires NonEmpty(dims) && p < |dims| && dims[p].Upper() > MAX
    ensures InBounds(Beside(dims, p), dims)
  {
    WrappedBelow(dims[p]);
  }

  /** The first dimension whose upper bound is past an Int32. */
  ghost function PastInt32(dims: Dimensions): nat
    requires NonEmpty(dims) && !AllValid(dims)
    ensures PastInt32(dims) < |dims| && dims[PastInt32(dims)].Upper() > MAX
  {
    var p :| 0 <= p < |dims| && !dims[p].Valid();
    p
  }

  /**
   * encodeSafeArray on an array whose shape matches. If COM can describe the
   * shape, it succeeds exactly when the odometer stays inside, and then holds each
   * element at the vector of its rank. If not, it fails, or leaves some element of
   * the shape unset: elements have been written over one another.
   */
  method Encode<T(!new)>(dims: Dimensions, elements: seq<T>) returns (r: Option<SafeArray<T>>)
    requires dims != [] && NonEmpty(dims) && |elements| == Count(dims)
    ensures AllValid(dims) ==> (r.Some? <==> NoOverrun(dims))
    ensures AllValid(dims) && r.Some? ==> Holds(r.value, dims, elements, |elements|)
    ensures !AllValid(dims) && r.Some? ==> exists ix :: InBounds(ix, dims) && ix !in r.value
    ensures r.Some? ==> forall ix <- r.value :: InBounds(ix, dims)
  {
    hide Iterate, Advance, Digits, Count, Lowers, NoOverrun, InBounds, Holds, AllValid;
    var indices := new i32[|dims|](i requires 0 <= i < |dims| => dims[i].lower);
    LowersByIndex(dims);
    assert indices[..] == Lowers(dims);
    IterateNext(0, dims);
    if AllValid(dims) {
      HoldsNothing(dims, elements);
    }
    var a: SafeArray<T> := map[];
    for k := 0 to |elements|
      invariant indices[..] == Iterate(k, dims)
      invariant forall j: nat :: j < k ==> InBounds(Iterate(j, dims), dims)
      invariant forall ix <- a :: InBounds(ix, dims) && exists j: nat :: j < k && ix == Iterate(j, dims)
      invariant AllValid(dims) && NoOverrun(dims) ==> Holds(a, dims, elements, k)
    {
      if !InBounds(indices[..], dims) {
        if AllValid(dims) && NoOverrun(dims) {
          StaysInBounds(dims, k);
        }
        return None;
      }
      ghost var before := a;
      a := a[indices[..] := elements[k]];
      if AllValid(dims) && NoOverrun(dims) {
        HoldsStep(before, dims, elements, k);
      }
      IterateNext(k, dims);
      AdvanceInPlace(indices, dims);
    }
    if AllValid(dims) && !NoOverrun(dims) {
      FirstFailure(dims);
      assert false;
    }
    if !AllValid(dims) {
      SomethingIsUnset(a, dims);
    }
    return Some(a);
  }

  lemma SomethingIsUnset<T>(a: SafeArray<T>, dims: Dimensions)
    requires NonEmpty(dims) && !AllValid(dims)
    requires forall ix <- a :: InBounds(ix, dims) && exists j: nat :: ix == Iterate(j, dims)
    ensures exists ix :: InBounds(ix, dims) && ix !in a
  {
    var p := PastInt32(dims);
    BesideIsInBounds(dims, p);
    var w := Beside(dims, p);
    if w in a {
      var j: nat :| w == Iterate(j, dims);
      VisitedAtLower(j, dims, p);
    }
    assert InBounds(w, dims) && w !in a;
  }

  lemma {:induction false} LowersByIndex(dims: Dimensions)
    ensures forall i :: 0 <= i < |dims| ==> Lowers(dims)[i] == dims[i].lower
  {
    if dims != [] {
      LowersByIndex(dims[..|dims| - 1]);
    }
  }

  lemma DigitsDiffer(dims: Dimensions, k: nat)
    requires AllValid(dims) && k < Count(dims)
    ensures forall j: nat :: j < k ==> Digits(j, dims) != Digits(k, dims)
  {
    hide Digits, Count, InBounds, Rank, AllValid;
    RankOfDigits(k, dims);
    forall j: nat | j < k ensures Digits(j, dims) != Digits(k, dims) {
      RankOfDigits(j, dims);
    }
  }

  lemma HoldsStep<T(!new)>(a: SafeArray<T>, dims: Dimensions, elements: seq<T>, k: nat)
    requires AllValid(dims) && NoOverrun(dims) && k < |elements| == Count(dims) && Holds(a, dims, elements, k)
    ensures Holds(a[Iterate(k, dims) := elements[k]], dims, elements, k + 1)
  {
    hide Iterate, Digits, Count, NoOverrun, InBounds, AllValid;
    StaysInBounds(dims, k);
    DigitsDiffer(dims, k);
    var b := a[Digits(k, dims) := elements[k]];
    forall j: nat | j < k + 1 ensures Digits(j, dims) in b && b[Digits(j, dims)] == elements[j] {
      assert j < k ==> Digits(j, dims) in a;
    }
    assert forall ix <- b :: ix == Digits(k, dims) || ix in a;
  }

  /**
   * A dimension safeArrayDimensions takes: not empty, with an upper bound COM can
   * report, within the limit. Of empty ones it lets through that at the lowest
   * Int32, whose upper bound wraps to the highest, under a limit of 2^32 or more;
   * its length is then cut back to zero.
   */
  predicate Described(d: Dimension, maxElements: int) {
    if d.length == 0 then d.lower == MIN && maxElements >= 0x1_0000_0000 else d.Valid() && d.length <= maxElements
  }

  lemma ReportedLength(d: Dimension)
    ensures var (lower, upper) := (d.lower as int, d.WrappedUpper() as int);
      && (d.length == 0 ==> if d.lower == MIN then upper - lower + 1 == 0x1_0000_0000 else upper < lower)
      && (d.length > 0 && d.Valid() ==> upper - lower + 1 == d.length)
      && (d.length > 0 && !d.Valid() ==> upper < lower)
  {
    if d.Valid() {
      WrappedUpperIsUpper(d);
    } else if d.length > 0 {
      WrappedBelow(d);
    }
  }

  /** safeArrayDimensions: the shape as COM reports it, lower bound and Int32 upper bound, held to the limits. */
  method SafeArrayDimensions(created: Dimensions, maxDimensions: nat, maxElements: int) returns (r: Option<Dimensions>)
    ensures r.Some? <==> 1 <= |created| <= maxDimensions && forall d <- created :: Described(d, maxElements)
    ensures r.Some? ==> r.value == created
  {
    hide Dimension.WrappedUpper;
    if |created| == 0 || |created| > maxDimensions {
      return None;
    }
    var dims: Dimensions := [];
    for k := 0 to |created|
      invariant dims == created[..k] && forall i :: 0 <= i < k ==> Described(created[i], maxElements)
    {
      var d := created[k];
      assert d in created;
      var lower: int := d.lower;
      var upper: int := d.WrappedUpper();
      ReportedLength(d);
      if upper < lower {
        return None;
      }
      var length := upper - lower + 1;
      if length > maxElements {
        return None;
      }
      dims := dims + [Dimension(lower, length % 0x1_0000_0000)];
    }
    return Some(dims);
  }

  /** What SafeArrayGetElement finds inside the bounds: an element never put is zero. */
  function Element<T>(a: SafeArray<T>, ix: seq<int>, zero: T): T {
    if ix in a then a[ix] else zero
  }

  /** decodeSafeArray: the shape, its size, then the elements one by one. */
  method Decode<T(!new)>(created: Dimensions, a: SafeArray<T>, zero: T, maxDimensions: nat, maxElements: i64) returns (r: Option<seq<T>>)
    ensures Countable(created, maxElements) ==>
      (r.Some? <==> 1 <= |created| <= maxDimensions && Count(created) <= maxElements && AllValid(created) && NoOverrun(created))
    ensures r.Some? && Countable(created, maxElements) ==> AllValid(created) && |r.value| == Count(created)
    ensures r.Some? && Countable(created, maxElements) ==>
      forall k: nat :: k < Count(created) ==> r.value[k] == Element(a, Digits(k, created), zero)
  {
    hide Iterate, Advance, Digits, Count, Lowers, NoOverrun, InBounds, AllValid, NonEmpty, Checked, Described;
    if AllValid(created) && Count(created) <= maxElements {
      CountPositive(created);
      ValidIsDescribed(created, maxElements);
    }
    var described := SafeArrayDimensions(created, maxDimensions, maxElements);
    if described.None? {
      return None;
    }
    LimitIsPositive(created, maxElements);
    CheckedIsCount(created, maxElements);
    CheckedIsNonEmpty(created, maxElements);
    var count := ElementCount(created, maxElements);
    if count.None? {
      ValidIsNonEmpty(created);
      return None;
    }
    DescribedIsValid(created, maxElements);
    r := ReadElements(created, count.value, a, zero);
  }

  lemma ValidIsNonEmpty(dims: Dimensions)
    ensures AllValid(dims) ==> NonEmpty(dims)
  {
  }

  lemma ValidIsDescribed(dims: Dimensions, maxElements: nat)
    requires AllValid(dims) && Count(dims) <= maxElements
    ensures forall d <- dims :: Described(d, maxElements)
  {
    EachWithinCount(dims, maxElements);
  }

  lemma LimitIsPositive(dims: Dimensions, maxElements: int)
    requires dims != [] && forall d <- dims :: Described(d, maxElements)
    ensures maxElements > 0
  {
    assert Described(dims[0], maxElements);
  }

  lemma DescribedIsValid(dims: Dimensions, maxElements: int)
    requires NonEmpty(dims) && forall d <- dims :: Described(d, maxElements)
    ensures AllValid(dims)
  {
    forall i | 0 <= i < |dims| ensures dims[i].Valid() {
      assert Described(dims[i], maxElements);
    }
  }

  /** The element loop of decodeSafeArray. */
  method ReadElements<T(!new)>(dims: Dimensions, count: nat, a: SafeArray<T>, zero: T) returns (r: Option<seq<T>>)
    requires AllValid(dims)
    ensures count == Count(dims) ==> (r.Some? <==> NoOverrun(dims))
    ensures r.Some? ==> |r.value| == count
    ensures r.Some? && count == Count(dims) ==> forall k: nat :: k < count ==> r.value[k] == Element(a, Digits(k, dims), zero)
  {
    hide Iterate, Advance, Digits, Count, Lowers, NoOverrun, InBounds, AllValid, Element;
    var indices := new i32[|dims|](i requires 0 <= i < |dims| => dims[i].lower);
    LowersByIndex(dims);
    assert indices[..] == Lowers(dims);
    IterateNext(0, dims);
    var elements: seq<T> := [];
    for read := 0 to count
      invariant indices[..] == Iterate(read, dims) && |elements| == read
      invariant forall j: nat :: j < read ==> InBounds(Iterate(j, dims), dims) && elements[j] == Element(a, Iterate(j, dims), zero)
    {
      if !InBounds(indices[..], dims) {
        if NoOverrun(dims) && count == Count(dims) {
          StaysInBounds(dims, read);
        }
        return None;
      }
      elements := elements + [Element(a, indices[..], zero)];
      IterateNext(read, dims);
      AdvanceInPlace(indices, dims);
    }
    if count == Count(dims) {
      if !NoOverrun(dims) {
        FirstFailure(dims);
        assert false;
      }
      ReadInOrder(dims, a, zero, elements);
    }
    return Some(elements);
  }

  lemma ReadInOrder<T(!new)>(dims: Dimensions, a: SafeArray<T>, zero: T, elements: seq<T>)
    requires AllValid(dims) && NoOverrun(dims) && |elements| == Count(dims)
    requires forall j: nat :: j < |elements| ==> elements[j] == Element(a, Iterate(j, dims), zero)
    ensures forall k: nat :: k < Count(dims) ==> elements[k] == Element(a, Digits(k, dims), zero)
  {
    hide Iterate, Digits, Count, NoOverrun, AllValid, Element;
    forall k: nat | k < Count(dims) ensures elements[k] == Element(a, Digits(k, dims), zero) {
      StaysInBounds(dims, k);
    }
  }

  /**
   * decode(encode(a)) is a, for every array that meets its shape and the limits,
   * exactly when COM can describe the shape and no dimension ending at 2^31-1
   * follows one with more than one element; otherwise one of the two refuses.
   */
  method EncodeThenDecode<T(!new)>(dims: Dimensions, elements: seq<T>, zero: T, maxDimensions: nat, maxElements: i64) returns (r: Option<seq<T>>)
    requires dims != [] && NonEmpty(dims) && |elements| == Count(dims)
    requires |dims| <= maxDimensions && Count(dims) <= maxElements
    ensures r == if AllValid(dims) && NoOverrun(dims) then Some(elements) else None
  {
    hide NoOverrun, AllValid, InBounds, Digits, Count, NonEmpty;
    var a := Encode(dims, elements);
    if a.None? {
      return None;
    }
    if AllValid(dims) {
      AllThere(a.value, dims, elements);
    }
    r := Decode(dims, a.value, zero, maxDimensions, maxElements);
    if r.Some? {
      assert r.value == elements;
    }
  }

  lemma AllThere<T(!new)>(a: SafeArray<T>, dims: Dimensions, elements: seq<T>)
    requires AllValid(dims) && |elements| == Count(dims) && Holds(a, dims, elements, |elements|)
    ensures forall k: nat :: k < Count(dims) ==> Digits(k, dims) in a && a[Digits(k, dims)] == elements[k]
  {
  }

  /** Two dimensions, the last of which ends at 2^31-1: the third element is put outside the array. */
  lemma OverrunExample()
    ensures var dims := [Dimension(0, 2), Dimension(MAX - 1, 2)]; AllValid(dims) && !NoOverrun(dims) && !Enumerated(dims)
  {
    var dims := [Dimension(0, 2), Dimension(MAX - 1, 2)];
    assert dims[1].Upper() == MAX && dims[0].length == 2;
    OdometerExactly(dims);
  }

  // ---------------------------------------------------------------- shapes

  function Mul64(a: u64, b: u64): u64 { (a * b) % TWO_64 }

  ghost predicate NonEmpty(dims: Dimensions) {
    forall i :: 0 <= i < |dims| ==> dims[i].length >= 1
  }

  /** The bounded product both checks compute, in wrapping 64-bit arithmetic, giving up where it passes the bound. */
  function Checked(dims: Dimensions, bound: nat): (r: Option<u64>)
    requires bound < TWO_63
    decreases |dims|
  {
    if dims == [] then Some(1)
    else
      var (before, d) := (Checked(dims[..|dims| - 1], bound), dims[|dims| - 1]);
      if before.None? || d.length == 0 || Mul64(before.value, d.length) > bound then None
      else Some(Mul64(before.value, d.length))
  }

  /** What the checks are for: the true product, if it is within the bound and no length is zero. */
  ghost function Counted(dims: Dimensions, bound: nat): Option<nat> {
    if NonEmpty(dims) && (dims == [] || Count(dims) <= bound) then Some(Count(dims)) else None
  }

  /** The largest bound under which no product wraps. */
  const EXACT_BOUND := 0x1_0000_0001

  ghost predicate Countable(dims: Dimensions, bound: int) {
    Count(dims) <= bound || bound <= EXACT_BOUND
  }

  lemma NoWrap(count: nat, d: Dimension)
    requires count <= EXACT_BOUND
    ensures count * d.length < TWO_64 && Mul64(count, d.length) == Scale(count, d)
  {
    assert count * d.length <= EXACT_BOUND * d.length;
  }

  lemma FitsAnyway(count: nat, d: Dimension, bound: nat)
    requires Scale(count, d) <= bound < TWO_63
    ensures count < TWO_64 ==> Mul64(count, d.length) == Scale(count, d)
  {
  }

  lemma NonEmptyLast(dims: Dimensions)
    requires dims != []
    ensures NonEmpty(dims) <==> NonEmpty(dims[..|dims| - 1]) && dims[|dims| - 1].length >= 1
  {
    assert forall i :: 0 <= i < |dims| - 1 ==> dims[..|dims| - 1][i] == dims[i];
  }

  lemma {:induction false} CountAtLeastOne(dims: Dimensions)
    requires NonEmpty(dims)
    ensures Count(dims) >= 1
  {
    if dims != [] {
      NonEmptyLast(dims);
      CountAtLeastOne(dims[..|dims| - 1]);
      AtLeastOnce(Count(dims[..|dims| - 1]), dims[|dims| - 1].length);
    }
  }

  /** A longer prefix counts no less. */
  lemma CountGrows(dims: Dimensions)
    requires dims != [] && NonEmpty(dims)
    ensures Count(dims[..|dims| - 1]) <= Count(dims)
  {
    NonEmptyLast(dims);
    CountAtLeastOne(dims[..|dims| - 1]);
    AtLeastOnce(dims[|dims| - 1].length, Count(dims[..|dims| - 1]));
  }

  /** The check finds every count within its bound; and within 2^32+1, nothing else. */
  lemma {:induction false} CheckedIsCount(dims: Dimensions, bound: nat)
    requires 0 < bound < TWO_63
    ensures NonEmpty(dims) && Count(dims) <= bound ==> Checked(dims, bound) == Some(Count(dims))
    ensures bound <= EXACT_BOUND ==> Checked(dims, bound) == Counted(dims, bound)
    decreases |dims|
  {
    if dims != [] {
      var (before, d) := (dims[..|dims| - 1], dims[|dims| - 1]);
      CheckedIsCount(before, bound);
      NonEmptyLast(dims);
      hide Mul64, Scale;
      if NonEmpty(dims) {
        CountGrows(dims);
        if Count(dims) <= bound {
          FitsAnyway(Count(before), d, bound);
        }
        if Count(before) <= bound <= EXACT_BOUND {
          NoWrap(Count(before), d);
        }
      }
    }
  }

  lemma {:induction false} CheckedIsNonEmpty(dims: Dimensions, bound: nat)
    requires bound < TWO_63
    ensures Checked(dims, bound).Some? ==> NonEmpty(dims)
    decreases |dims|
  {
    if dims != [] && Checked(dims, bound).Some? {
      CheckedIsNonEmpty(dims[..|dims| - 1], bound);
      NonEmptyLast(dims);
    }
  }

  /** Past 2^32+1 there is always a shape the check miscounts: 2^31+1 by 2 by 2^32-1 elements pass for 2^32-2. */
  lemma MiscountedShape(bound: nat)
    requires EXACT_BOUND < bound < TWO_63
    ensures var dims := [Dimension(0, 0x8000_0001), Dimension(0, 2), Dimension(0, 0xFFFF_FFFF)];
      Checked(dims, bound) == Some(0xFFFF_FFFE) && Counted(dims, bound) == None
  {
    var (a, b, c) := (Dimension(0, 0x8000_0001), Dimension(0, 2), Dimension(0, 0xFFFF_FFFF));
    var dims := [a, b, c];
    assert dims[..2] == [a, b] && dims[..2][..1] == [a] && dims[..2][..1][..0] == [];
    assert Count([]) == 1;
    assert Count([a]) == 0x8000_0001 by { assert [a][..0] == []; }
    assert Count([a, b]) == 0x1_0000_0002 by { assert [a, b][..1] == [a]; }
    assert Count(dims) == 0x1_0000_0002 * 0xFFFF_FFFF;
    assert Checked([], bound) == Some(1);
    assert Checked([a], bound) == Some(0x8000_0001) by { assert [a][..0] == []; }
    assert Checked([a, b], bound) == Some(0x1_0000_0002) by { assert [a, b][..1] == [a]; }
    assert Mul64(0x1_0000_0002, 0xFFFF_FFFF) == 0xFFFF_FFFE;
  }

  /** The check counts every shape correctly exactly when its bound is at most 2^32+1. */
  lemma CountedExactly(bound: nat)
    requires 0 < bound < TWO_63
    ensures (forall dims: Dimensions :: Checked(dims, bound) == Counted(dims, bound)) <==> bound <= EXACT_BOUND
  {
    if bound <= EXACT_BOUND {
      forall dims: Dimensions ensures Checked(dims, bound) == Counted(dims, bound) {
        CheckedIsCount(dims, bound);
      }
    } else {
      MiscountedShape(bound);
    }
  }

  lemma {:induction false} EachWithinCount(dims: Dimensions, bound: nat)
    requires NonEmpty(dims) && Count(dims) <= bound
    ensures forall d <- dims :: d.length <= bound
    decreases |dims|
  {
    if dims != [] {
      var (before, d) := (dims[..|dims| - 1], dims[|dims| - 1]);
      CountGrows(dims);
      NonEmptyLast(dims);
      EachWithinCount(before, bound);
      CountAtLeastOne(before);
      AtLeastOnce(Count(before), d.length);
      assert dims == before + [d];
    }
  }

  /** ElementCount: the loop computes the bounded product. */
  method ElementCount(dims: Dimensions, maximum: i64) returns (r: Option<nat>)
    ensures maximum <= 0 ==> r == None
    ensures maximum > 0 ==> r == Checked(dims, maximum)
  {
    if maximum <= 0 {
      return None;
    }
    var count: u64 := 1;
    for index := 0 to |dims|
      invariant Checked(dims[..index], maximum) == Some(count)
    {
      assert dims[..index + 1][..index] == dims[..index];
      if dims[index].length == 0 || Mul64(count, dims[index].length) > maximum {
        NeverRecovers(dims, index + 1, maximum);
        return None;
      }
      count := Mul64(count, dims[index].length);
    }
    assert dims[..|dims|] == dims;
    return Some(count);
  }

  lemma {:induction false} NeverRecovers(dims: Dimensions, n: nat, bound: nat)
    requires n <= |dims| && bound < TWO_63 && Checked(dims[..n], bound).None?
    ensures Checked(dims, bound).None?
    decreases |dims| - n
  {
    if n == |dims| {
      assert dims[..n] == dims;
    } else {
      assert dims[..n + 1][..n] == dims[..n];
      NeverRecovers(dims, n + 1, bound);
    }
  }

  /** MatchesItsShape: the same product, bounded by the elements carried and then compared with them. */
  method MatchesItsShape(dims: Dimensions, carried: nat) returns (ok: bool)
    requires carried < TWO_63
    ensures ok <==> dims != [] && Checked(dims, carried) == Some(carried)
  {
    if |dims| == 0 {
      return false;
    }
    var described: u64 := 1;
    for index := 0 to |dims|
      invariant Checked(dims[..index], carried) == Some(described)
    {
      assert dims[..index + 1][..index] == dims[..index];
      if dims[index].length == 0 || Mul64(described, dims[index].length) > carried {
        NeverRecovers(dims, index + 1, carried);
        return false;
      }
      described := Mul64(described, dims[index].length);
    }
    assert dims[..|dims|] == dims;
    return described == carried;
  }

  /** A shape that describes the elements always matches them; and up to 2^32+1 elements no other shape does. */
  lemma MatchingShapes(dims: Dimensions, carried: nat)
    requires dims != [] && carried < TWO_63
    ensures NonEmpty(dims) && Count(dims) == carried ==> Checked(dims, carried) == Some(carried)
    ensures carried <= EXACT_BOUND ==> (Checked(dims, carried) == Some(carried) <==> NonEmpty(dims) && Count(dims) == carried)
  {
    if carried > 0 {
      CheckedIsCount(dims, carried);
    } else if NonEmpty(dims) {
      CountAtLeastOne(dims);
    }
  }

  /** With 2^33-4 elements a shape of four dimensions, the product of which is over 2^65, matches them. */
  lemma MismatchedShape()
    ensures var dims := [Dimension(0, 0x8000_0001), Dimension(0, 2), Dimension(0, 0xFFFF_FFFF), Dimension(0, 2)];
      Checked(dims, 0x1_FFFF_FFFC) == Some(0x1_FFFF_FFFC) && Count(dims) != 0x1_FFFF_FFFC
  {
    var (a, b, c) := (Dimension(0, 0x8000_0001), Dimension(0, 2), Dimension(0, 0xFFFF_FFFF));
    var dims := [a, b, c, b];
    var three := [a, b, c];
    MiscountedShape(0x1_FFFF_FFFC);
    assert dims[..3] == three;
    assert Mul64(0xFFFF_FFFE, 2) == 0x1_FFFF_FFFC;
    assert Count(three) > 0x1_FFFF_FFFC by { assert Counted(three, 0x1_FFFF_FFFC) == None; }
  }
}
