/** The fixed-width numbers of the source, and how its arithmetic on them goes over the edge. */
module Ints {
  type byte = x: int | 0 <= x < 0x100
  type u16 = x: int | 0 <= x < 0x1_0000
  type u32 = x: int | 0 <= x < 0x1_0000_0000
  type u64 = x: int | 0 <= x < 0x1_0000_0000_0000_0000
  type i8 = x: int | -0x80 <= x < 0x80
  type i16 = x: int | -0x8000 <= x < 0x8000
  type i32 = x: int | -0x8000_0000 <= x < 0x8000_0000
  type i64 = x: int | -0x8000_0000_0000_0000 <= x < 0x8000_0000_0000_0000

  const TWO_63 := 0x8000_0000_0000_0000
  const TWO_64 := 0x1_0000_0000_0000_0000

  function Wrap32(x: int): (r: i32)
    ensures -0x8000_0000 <= x < 0x8000_0000 ==> r == x
  {
    (x + 0x8000_0000) % 0x1_0000_0000 - 0x8000_0000
  }

  function Wrap64(x: int): (r: i64)
    ensures -0x8000_0000_0000_0000 <= x < 0x8000_0000_0000_0000 ==> r == x
  {
    (x + TWO_63) % TWO_64 - TWO_63
  }

  /** A float64: its comparisons are exact, and every comparison with NaN is false. */
  datatype Double = Finite(value: real) | PosInf | NegInf | NaN {
    predicate Less(other: Double) {
      match (this, other)
      case (NaN, _) => false
      case (_, NaN) => false
      case (PosInf, _) => false
      case (_, NegInf) => false
      case (NegInf, _) => true
      case (_, PosInf) => true
      case (Finite(a), Finite(b)) => a < b
    }

    predicate Equal(other: Double) { !NaN? && this == other }

    /** Not negative, as far as a comparison can tell. */
    predicate NonNegative() { NaN? || PosInf? || (Finite? && value >= 0.0) }

    /** Conversion to int64: toward zero, and the smallest int64 for what does not fit. */
    function ToInt64(): i64 {
      match this
      case Finite(v) =>
        var t := if v >= 0.0 then v.Floor else -((-v).Floor);
        if -TWO_63 <= t < TWO_63 then t else -TWO_63
      case _ => -TWO_63
    }
  }

  /** The distance between float32 numbers next to `v`, looked for downwards from a power of two. */
  function Spacing(v: real, top: real, steps: nat): (r: real)
    requires top > 0.0
    ensures r > 0.0
    decreases steps
  {
    if steps == 0 || v >= top then top / 8388608.0 else Spacing(v, top / 2.0, steps - 1)
  }

  /** The nearest integer, the even one of two. */
  function Nearest(q: real): int {
    var (low, rest) := (q.Floor, q - q.Floor as real);
    if rest < 0.5 || (rest == 0.5 && low % 2 == 0) then low else low + 1
  }

  /** Conversion to float32 of a number below 128: exponents go from 6 down to -126. */
  function ToFloat32(v: real): real
    requires 0.0 <= v < 128.0
  {
    var ulp := Spacing(v, 64.0, 132);
    Nearest(v / ulp) as real * ulp
  }

  const NS_PER_MS := 1_000_000

  /** time.Duration(d) * time.Millisecond: an int64 product. */
  function Milliseconds(d: Double): i64 {
    Wrap64(d.ToInt64() * NS_PER_MS)
  }

  /**
   * A requested number of milliseconds held between two Durations, in whole
   * milliseconds, as reviseTimeout and revisePublishingInterval do it: the product
   * they compare may have wrapped.
   */
  function Revised(least: i64, most: i64, requested: Double): (ms: int)
    ensures 0 < least <= most ==> 0 <= least / NS_PER_MS <= ms <= most / NS_PER_MS
  {
    var asked := Milliseconds(requested);
    var atLeast := if requested.Less(Finite(0.0)) || requested.Equal(Finite(0.0)) || asked < least then least else asked;
    (if atLeast > most then most else atLeast) / NS_PER_MS
  }

  /** What the request would be held to without the edges of an int64; what is no number asks for the least. */
  function Clamped(least: i64, most: i64, requested: Double): int {
    match requested
    case PosInf => most / NS_PER_MS
    case Finite(v) =>
      var ns := v.Floor * NS_PER_MS;
      if ns < least then least / NS_PER_MS else if ns > most then most / NS_PER_MS else v.Floor
    case _ => least / NS_PER_MS
  }

  /** Its nanoseconds are past an int64. */
  predicate TooLong(d: Double) {
    d.PosInf? || (d.Finite? && d.value.Floor * NS_PER_MS >= TWO_63)
  }

  /**
   * Every request is held between the limits as it should be, except one that is
   * too long and wraps to something short of the longest; where the limits are one
   * millisecond, even that goes unnoticed.
   */
  lemma RevisedExactly(least: i64, most: i64, requested: Double)
    requires 0 < least <= most
    ensures Revised(least, most, requested) == Clamped(least, most, requested)
        <==> !TooLong(requested) || Milliseconds(requested) / NS_PER_MS >= most / NS_PER_MS || least / NS_PER_MS == most / NS_PER_MS
  {
  }

  /** now.Sub(last), which stops at the largest and smallest Duration. */
  function Elapsed(last: int, now: int): i64 {
    if now - last >= TWO_63 then TWO_63 - 1 else if now - last < -TWO_63 then -TWO_63 else now - last
  }
}
