/**
 * UA Binary primitives (binary.go, datetime.go): little-endian integers,
 * length-prefixed strings and arrays, floats as bit patterns, DateTime.
 *
 * An encoding is the bytes a value is written as, or the refusal that stops the
 * encoder. A reader takes a buffer and an offset and yields a value and the
 * offset after it, or a refusal.
 */
module Wire {
  import opened Prelude
  import opened Ints

  type bytes = seq<byte>

  datatype Error = DecodingError | LimitsExceeded | EncodingError

  datatype Limits = Limits(maxMessageBytes: nat, maxStringBytes: nat, maxByteStringBytes: nat, maxArrayLength: nat, maxNestingDepth: nat) {
    predicate Valid() {
      && 0 < maxMessageBytes < 0x8000_0000 && 0 < maxStringBytes <= maxMessageBytes && 0 < maxByteStringBytes <= maxMessageBytes
      && 0 < maxArrayLength < 0x8000_0000 && 100 <= maxNestingDepth
    }
  }

  /** The bytes a value is written as; or why it is refused, and the bytes written before that. */
  datatype Enc = Written(data: bytes) | Refused(error: Error, before: bytes) {
    /** Writing one value after another: the first refusal stands. */
    function Then(next: Enc): Enc {
      if Refused? then this
      else if next.Refused? then Refused(next.error, data + next.before)
      else Written(data + next.data)
    }
  }

  /** What a call returns: a value, or the failure. */
  datatype Got<+T> = Value(value: T) | Fault(error: Error)

  datatype Parsed<+T> = Ok(value: T, next: nat) | Err(error: Error) {
    predicate IsFailure() { Err? }
    function PropagateFailure<U>(): Parsed<U> requires Err? { Err(error) }
    function Extract(): (T, nat) requires Ok? { (value, next) }
  }

  /** `data` stands in `buf` at `off`. */
  predicate At(buf: bytes, off: nat, data: bytes) {
    off + |data| <= |buf| && buf[off..off + |data|] == data
  }

  /** `e` was accepted and its bytes stand at `off`. */
  predicate Stands(buf: bytes, off: nat, e: Enc) {
    e.Written? && At(buf, off, e.data)
  }

  function Size(e: Enc): nat {
    if e.Written? then |e.data| else 0
  }

  lemma AtFits(buf: bytes, off: nat, data: bytes)
    requires At(buf, off, data)
    ensures off + |data| <= |buf|
  {
  }

  lemma AtConcat(buf: bytes, off: nat, a: bytes, b: bytes)
    ensures At(buf, off, a + b) <==> At(buf, off, a) && At(buf, off + |a|, b)
  {
    if off + |a + b| <= |buf| {
      var whole := buf[off..off + |a + b|];
      assert whole[..|a|] == buf[off..off + |a|];
      assert whole[|a|..] == buf[off + |a|..off + |a| + |b|];
      assert (a + b)[..|a|] == a && (a + b)[|a|..] == b;
      if At(buf, off, a) && At(buf, off + |a|, b) {
        assert whole == whole[..|a|] + whole[|a|..];
      }
    }
  }

  // ---------------------------------------------------------------- little-endian integers

  function Pow256(n: nat): (p: nat)
    ensures p > 0
  {
    if n == 0 then 1 else 256 * Pow256(n - 1)
  }

  /** The `n` low bytes of `v`, least significant first. */
  function LittleEndian(v: nat, n: nat): (s: bytes)
    ensures |s| == n
  {
    if n == 0 then [] else [v % 256] + LittleEndian(v / 256, n - 1)
  }

  function FromLittleEndian(s: bytes): (v: nat)
    ensures v < Pow256(|s|)
  {
    if s == [] then 0 else s[0] + 256 * FromLittleEndian(s[1..])
  }

  lemma {:induction false} LittleEndianRoundTrip(v: nat, n: nat)
    requires v < Pow256(n)
    ensures FromLittleEndian(LittleEndian(v, n)) == v
  {
    if n > 0 {
      LittleEndianRoundTrip(v / 256, n - 1);
      assert LittleEndian(v, n)[1..] == LittleEndian(v / 256, n - 1);
    }
  }

  lemma DivMod256(low: byte, high: nat)
    ensures (low + 256 * high) % 256 == low && (low + 256 * high) / 256 == high
  {
  }

  lemma {:induction false} FromLittleEndianRoundTrip(s: bytes)
    ensures LittleEndian(FromLittleEndian(s), |s|) == s
  {
    if s != [] {
      FromLittleEndianRoundTrip(s[1..]);
      var rest := FromLittleEndian(s[1..]);
      DivMod256(s[0], rest);
      assert s == [s[0]] + s[1..];
    }
  }

  lemma Powers()
    ensures Pow256(1) == 0x100 && Pow256(2) == 0x1_0000 && Pow256(4) == 0x1_0000_0000 && Pow256(8) == 0x1_0000_0000_0000_0000
  {
  }

  /** take: refuses to read past the end. */
  function ReadBytes(buf: bytes, off: nat, n: nat): (r: Parsed<bytes>)
    ensures r.Ok? <==> off + n <= |buf|
    ensures r.Ok? ==> r.next == off + n && At(buf, off, r.value)
  {
    if off + n <= |buf| then Ok(buf[off..off + n], off + n) else Err(DecodingError)
  }

  function ReadUnsigned(buf: bytes, off: nat, n: nat): (r: Parsed<nat>)
    ensures r.Ok? <==> off + n <= |buf|
    ensures r.Ok? ==> r.next == off + n && r.value < Pow256(n)
  {
    var (s, next) :- ReadBytes(buf, off, n);
    Ok(FromLittleEndian(s), next)
  }

  lemma UnsignedRoundTrip(buf: bytes, off: nat, v: nat, n: nat)
    requires v < Pow256(n) && At(buf, off, LittleEndian(v, n))
    ensures ReadUnsigned(buf, off, n) == Ok(v, off + n)
  {
    LittleEndianRoundTrip(v, n);
  }

  // Each fixed-width type: how it is written, how it is read, and that reading undoes writing.

  function EncByte(v: byte): (e: Enc)
    ensures e.Written? && |e.data| == 1
  {
    Written([v])
  }

  function ReadByte(buf: bytes, off: nat): (r: Parsed<byte>)
    ensures r.Ok? <==> off + 1 <= |buf|
    ensures r.Ok? ==> r.next == off + 1
  {
    if off < |buf| then Ok(buf[off], off + 1) else Err(DecodingError)
  }

  lemma ByteRoundTrip(buf: bytes, off: nat, v: byte)
    requires At(buf, off, EncByte(v).data)
    ensures ReadByte(buf, off) == Ok(v, off + 1)
  {
  }

  function EncBool(v: bool): (e: Enc)
    ensures e.Written? && |e.data| == 1
  {
    EncByte(if v then 1 else 0)
  }

  /** Any non-zero byte is true. */
  function ReadBool(buf: bytes, off: nat): (r: Parsed<bool>)
    ensures r.Ok? <==> off + 1 <= |buf|
    ensures r.Ok? ==> r.next == off + 1
  {
    var (b, next) :- ReadByte(buf, off);
    Ok(b != 0, next)
  }

  lemma BoolRoundTrip(buf: bytes, off: nat, v: bool)
    requires At(buf, off, EncBool(v).data)
    ensures ReadBool(buf, off) == Ok(v, off + 1)
  {
  }

  function EncU16(v: u16): (e: Enc)
    ensures e.Written? && |e.data| == 2
  {
    Written(LittleEndian(v, 2))
  }

  function ReadU16(buf: bytes, off: nat): (r: Parsed<u16>)
    ensures r.Ok? <==> off + 2 <= |buf|
    ensures r.Ok? ==> r.next == off + 2
  {
    Powers();
    var (v, next) :- ReadUnsigned(buf, off, 2);
    Ok(v, next)
  }

  lemma U16RoundTrip(buf: bytes, off: nat, v: u16)
    requires At(buf, off, EncU16(v).data)
    ensures ReadU16(buf, off) == Ok(v, off + 2)
  {
    Powers();
    UnsignedRoundTrip(buf, off, v, 2);
  }

  function EncU32(v: u32): (e: Enc)
    ensures e.Written? && |e.data| == 4
  {
    Written(LittleEndian(v, 4))
  }

  function ReadU32(buf: bytes, off: nat): (r: Parsed<u32>)
    ensures r.Ok? <==> off + 4 <= |buf|
    ensures r.Ok? ==> r.next == off + 4
  {
    Powers();
    var (v, next) :- ReadUnsigned(buf, off, 4);
    Ok(v, next)
  }

  lemma U32RoundTrip(buf: bytes, off: nat, v: u32)
    requires At(buf, off, EncU32(v).data)
    ensures ReadU32(buf, off) == Ok(v, off + 4)
  {
    Powers();
    UnsignedRoundTrip(buf, off, v, 4);
  }

  function EncU64(v: u64): (e: Enc)
    ensures e.Written? && |e.data| == 8
  {
    Written(LittleEndian(v, 8))
  }

  function ReadU64(buf: bytes, off: nat): (r: Parsed<u64>)
    ensures r.Ok? <==> off + 8 <= |buf|
    ensures r.Ok? ==> r.next == off + 8
  {
    Powers();
    var (v, next) :- ReadUnsigned(buf, off, 8);
    Ok(v, next)
  }

  lemma U64RoundTrip(buf: bytes, off: nat, v: u64)
    requires At(buf, off, EncU64(v).data)
    ensures ReadU64(buf, off) == Ok(v, off + 8)
  {
    Powers();
    UnsignedRoundTrip(buf, off, v, 8);
  }

  function U8Of(v: i8): byte { if v < 0 then v + 0x100 else v }
  function I8Of(v: byte): i8 { if v >= 0x80 then v - 0x100 else v }
  function U16Of(v: i16): u16 { if v < 0 then v + 0x1_0000 else v }
  function I16Of(v: u16): i16 { if v >= 0x8000 then v - 0x1_0000 else v }
  function U32Of(v: i32): u32 { if v < 0 then v + 0x1_0000_0000 else v }
  function I32Of(v: u32): i32 { if v >= 0x8000_0000 then v - 0x1_0000_0000 else v }
  function U64Of(v: i64): u64 { if v < 0 then v + 0x1_0000_0000_0000_0000 else v }
  function I64Of(v: u64): i64 { if v >= 0x8000_0000_0000_0000 then v - 0x1_0000_0000_0000_0000 else v }

  function EncI32(v: i32): (e: Enc)
    ensures e.Written? && |e.data| == 4
  {
    EncU32(U32Of(v))
  }

  function ReadI32(buf: bytes, off: nat): (r: Parsed<i32>)
    ensures r.Ok? <==> off + 4 <= |buf|
    ensures r.Ok? ==> r.next == off + 4
  {
    var (v, next) :- ReadU32(buf, off);
    Ok(I32Of(v), next)
  }

  lemma I32RoundTrip(buf: bytes, off: nat, v: i32)
    requires At(buf, off, EncI32(v).data)
    ensures ReadI32(buf, off) == Ok(v, off + 4)
  {
    U32RoundTrip(buf, off, U32Of(v));
  }

  // ---------------------------------------------------------------- floats

  /** IEEE 754: an all-ones exponent with a non-zero fraction. */
  predicate IsNaN32(v: u32) { (v / 0x80_0000) % 0x100 == 0xFF && v % 0x80_0000 != 0 }
  predicate IsNaN64(v: u64) { (v / 0x10_0000_0000_0000) % 0x800 == 0x7FF && v % 0x10_0000_0000_0000 != 0 }

  /** Every NaN is written as the one quiet NaN; any other float keeps its bits. */
  function Canon32(v: u32): u32 { if IsNaN32(v) then 0xFFC0_0000 else v }
  function Canon64(v: u64): u64 { if IsNaN64(v) then 0xFFF8_0000_0000_0000 else v }

  lemma CanonIsIdempotent(v: u32, w: u64)
    ensures Canon32(Canon32(v)) == Canon32(v) && (IsNaN32(Canon32(v)) <==> IsNaN32(v))
    ensures Canon64(Canon64(w)) == Canon64(w) && (IsNaN64(Canon64(w)) <==> IsNaN64(w))
  {
  }

  // ---------------------------------------------------------------- DateTime

  /** Nanoseconds since the Unix epoch. */
  type Instant = int
  const NS_PER_SECOND := 1_000_000_000
  const TICKS_PER_SECOND := 10_000_000
  const EPOCH_OFFSET_SECONDS := 11_644_473_600
  /** 1601-01-01 00:00:00 and 9999-12-31 23:59:59 UTC. */
  const LOWER_BOUND: Instant := -11_644_473_600 * 1_000_000_000
  const UPPER_BOUND: Instant := 253_402_300_799 * 1_000_000_000
  /** Go's zero time.Time, the year 1. */
  const ZERO_TIME: Instant := -62_135_596_800 * 1_000_000_000
  const DATETIME_MAX := 0x7FFF_FFFF_FFFF_FFFF

  function EncodeDateTime(t: Instant): (ticks: i64)
    ensures 0 <= ticks
  {
    if t <= LOWER_BOUND then 0
    else if t >= UPPER_BOUND then DATETIME_MAX
    else (t / NS_PER_SECOND + EPOCH_OFFSET_SECONDS) * TICKS_PER_SECOND + (t % NS_PER_SECOND) / 100
  }

  function DecodeDateTime(ticks: i64): (t: Instant)
    ensures LOWER_BOUND <= t <= UPPER_BOUND
  {
    if ticks <= 0 then LOWER_BOUND
    else if ticks == DATETIME_MAX then UPPER_BOUND
    else
      var t := (ticks / TICKS_PER_SECOND - EPOCH_OFFSET_SECONDS) * NS_PER_SECOND + (ticks % TICKS_PER_SECOND) * 100;
      if t > UPPER_BOUND then UPPER_BOUND else t
  }

  /** What an instant becomes on the wire: clamped to the two bounds and cut to a whole tick of 100 ns. */
  function CanonTime(t: Instant): Instant {
    if t <= LOWER_BOUND then LOWER_BOUND else if t >= UPPER_BOUND then UPPER_BOUND else t - t % 100
  }

  lemma TickParts(whole: int, fraction: int)
    requires 0 <= fraction < TICKS_PER_SECOND
    ensures (whole * TICKS_PER_SECOND + fraction) / TICKS_PER_SECOND == whole
    ensures (whole * TICKS_PER_SECOND + fraction) % TICKS_PER_SECOND == fraction
  {
  }

  lemma WholeTicks(seconds: int, fraction: int)
    requires 0 <= fraction < NS_PER_SECOND
    ensures (seconds * NS_PER_SECOND + fraction) % 100 == fraction % 100
  {
  }

  /** Ticks count 100 ns from 1601, between the two bounds and in whole ones. */
  lemma TicksSince1601(t: Instant)
    ensures EncodeDateTime(t)
      == if t <= -11_644_473_600_000_000_000 then 0
         else if t >= 253_402_300_799_000_000_000 then 9_223_372_036_854_775_807
         else (t + 11_644_473_600_000_000_000) / 100
  {
    var (seconds, fraction) := (t / NS_PER_SECOND, t % NS_PER_SECOND);
    assert t + 11_644_473_600_000_000_000 == ((seconds + EPOCH_OFFSET_SECONDS) * TICKS_PER_SECOND + fraction / 100) * 100 + fraction % 100;
  }

  lemma DateTimeRoundTrip(t: Instant)
    ensures DecodeDateTime(EncodeDateTime(t)) == CanonTime(t)
  {
    if LOWER_BOUND < t < UPPER_BOUND {
      var (seconds, fraction) := (t / NS_PER_SECOND, t % NS_PER_SECOND);
      assert t == seconds * NS_PER_SECOND + fraction;
      TickParts(seconds + EPOCH_OFFSET_SECONDS, fraction / 100);
      WholeTicks(seconds, fraction);
      assert DecodeDateTime(EncodeDateTime(t)) == seconds * NS_PER_SECOND + (fraction / 100) * 100;
    }
  }

  /** Any ticks are read as that many 100 ns after 1601, held between the two bounds. */
  lemma TimeOfTicks(ticks: i64)
    ensures DecodeDateTime(ticks)
      == if ticks <= 0 then -11_644_473_600_000_000_000
         else if ticks * 100 - 11_644_473_600_000_000_000 >= 253_402_300_799_000_000_000 then 253_402_300_799_000_000_000
         else ticks * 100 - 11_644_473_600_000_000_000
  {
  }

  /** Decoding, then encoding, gives the ticks back exactly for those that name an instant in range. */
  lemma TicksRoundTrip(ticks: i64)
    ensures EncodeDateTime(DecodeDateTime(ticks)) == ticks
      <==> 0 <= ticks < (UPPER_BOUND - LOWER_BOUND) / 100 || ticks == DATETIME_MAX
  {
  }

  function EncDateTime(t: Instant): (e: Enc)
    ensures e.Written? && |e.data| == 8
  {
    EncU64(U64Of(EncodeDateTime(t)))
  }

  function ReadDateTime(buf: bytes, off: nat): (r: Parsed<Instant>)
    ensures r.Ok? <==> off + 8 <= |buf|
    ensures r.Ok? ==> r.next == off + 8
  {
    var (v, next) :- ReadU64(buf, off);
    Ok(DecodeDateTime(I64Of(v)), next)
  }

  lemma DateTimeWireRoundTrip(buf: bytes, off: nat, t: Instant)
    requires At(buf, off, EncDateTime(t).data)
    ensures ReadDateTime(buf, off) == Ok(CanonTime(t), off + 8)
  {
    U64RoundTrip(buf, off, U64Of(EncodeDateTime(t)));
    DateTimeRoundTrip(t);
  }

  // ---------------------------------------------------------------- lengths and strings

  /** readLength: -1 is null; anything else negative or past the bound is refused. */
  function ReadLength(buf: bytes, off: nat, bound: nat): (r: Parsed<Option<nat>>)
    ensures r.Ok? ==> r.next == off + 4 <= |buf|
    ensures r.Ok? && r.value.Some? ==> r.value.value <= bound
  {
    var (raw, next) :- ReadI32(buf, off);
    if raw == -1 then Ok(None, next)
    else if raw < 0 then Err(DecodingError)
    else if raw > bound then Err(LimitsExceeded)
    else Ok(Some(raw), next)
  }

  function EncBlob(v: bytes, bound: nat): (e: Enc)
    requires bound < 0x8000_0000
    ensures e.Written? ==> |e.data| == 4 + |v|
  {
    if |v| > bound then Refused(LimitsExceeded, []) else EncI32(|v|).Then(Written(v))
  }

  function ReadBlob(buf: bytes, off: nat, bound: nat): (r: Parsed<Option<bytes>>)
    ensures r.Ok? ==> off + 4 <= r.next <= |buf|
  {
    var (length, next) :- ReadLength(buf, off, bound);
    if length.None? then Ok(None, next)
    else
      var (v, after) :- ReadBytes(buf, next, length.value);
      Ok(Some(v), after)
  }

  lemma BlobRoundTrip(buf: bytes, off: nat, v: bytes, bound: nat)
    requires bound < 0x8000_0000 && EncBlob(v, bound).Written? && At(buf, off, EncBlob(v, bound).data)
    ensures ReadBlob(buf, off, bound) == Ok(Some(v), off + 4 + |v|)
  {
    AtConcat(buf, off, EncI32(|v|).data, v);
    I32RoundTrip(buf, off, |v|);
  }

  lemma NullRoundTrip(buf: bytes, off: nat, bound: nat)
    requires At(buf, off, EncI32(-1).data)
    ensures ReadLength(buf, off, bound) == Ok(None, off + 4) && ReadBlob(buf, off, bound) == Ok(None, off + 4)
  {
    I32RoundTrip(buf, off, -1);
  }

  function EncString(l: Limits, v: bytes): (e: Enc)
    requires l.Valid()
    ensures e.Written? ==> |e.data| == 4 + |v|
  {
    EncBlob(v, l.maxStringBytes)
  }

  function ReadString(l: Limits, buf: bytes, off: nat): (r: Parsed<Option<bytes>>)
    ensures r.Ok? ==> off + 4 <= r.next <= |buf|
  {
    ReadBlob(buf, off, l.maxStringBytes)
  }

  function EncByteString(l: Limits, v: bytes): (e: Enc)
    requires l.Valid()
    ensures e.Written? ==> |e.data| == 4 + |v|
  {
    EncBlob(v, l.maxByteStringBytes)
  }

  function ReadByteString(l: Limits, buf: bytes, off: nat): (r: Parsed<Option<bytes>>)
    ensures r.Ok? ==> off + 4 <= r.next <= |buf|
  {
    ReadBlob(buf, off, l.maxByteStringBytes)
  }

  /** A string field whose reader takes null for empty. */
  function ReadText(l: Limits, buf: bytes, off: nat): (r: Parsed<bytes>)
    ensures r.Ok? ==> off + 4 <= r.next <= |buf|
  {
    var (v, next) :- ReadString(l, buf, off);
    Ok(if v.Some? then v.value else [], next)
  }

  lemma TextRoundTrip(l: Limits, buf: bytes, off: nat, v: bytes)
    requires l.Valid() && EncString(l, v).Written? && At(buf, off, EncString(l, v).data)
    ensures ReadText(l, buf, off) == Ok(v, off + 4 + |v|)
  {
    BlobRoundTrip(buf, off, v, l.maxStringBytes);
  }

  /** An empty string written as null, anything else as itself. */
  function EncOptionalText(l: Limits, v: bytes): (e: Enc)
    requires l.Valid()
    ensures e.Written? ==> |e.data| == 4 + |v|
  {
    if v == [] then EncI32(-1) else EncString(l, v)
  }

  lemma OptionalTextRoundTrip(l: Limits, buf: bytes, off: nat, v: bytes)
    requires l.Valid() && EncOptionalText(l, v).Written? && At(buf, off, EncOptionalText(l, v).data)
    ensures ReadText(l, buf, off) == Ok(v, off + 4 + |v|)
  {
    if v == [] {
      NullRoundTrip(buf, off, l.maxStringBytes);
    } else {
      TextRoundTrip(l, buf, off, v);
    }
  }

  // ---------------------------------------------------------------- arrays

  function EncArrayLength(l: Limits, n: nat): (e: Enc)
    requires l.Valid()
    ensures e.Written? ==> |e.data| == 4
  {
    if n > l.maxArrayLength then Refused(LimitsExceeded, []) else EncI32(n)
  }

  /** ReadArrayLength: a count that cannot fit in the bytes that remain, at `floor` bytes an element, is refused. */
  function ReadArrayLength(l: Limits, buf: bytes, off: nat, floor: nat): (r: Parsed<Option<nat>>)
    ensures r.Ok? ==> r.next == off + 4 <= |buf|
    ensures r.Ok? && r.value.Some? ==> r.value.value <= l.maxArrayLength && r.value.value * floor <= |buf| - r.next
  {
    var (n, next) :- ReadLength(buf, off, l.maxArrayLength);
    if n.Some? && n.value * floor > |buf| - next then Err(DecodingError) else Ok(n, next)
  }

  /** The elements one after another. */
  function EncAll<T>(enc: T -> Enc, xs: seq<T>): Enc {
    if xs == [] then Written([]) else enc(xs[0]).Then(EncAll(enc, xs[1..]))
  }

  function ReadAll<T>(read: (bytes, nat) -> Parsed<T>, n: nat, buf: bytes, off: nat): Parsed<seq<T>> {
    if n == 0 then Ok([], off)
    else
      var (x, next) :- read(buf, off);
      var (xs, after) :- ReadAll(read, n - 1, buf, next);
      Ok([x] + xs, after)
  }

  function MapSeq<T, U>(f: T -> U, xs: seq<T>): (ys: seq<U>)
    ensures |ys| == |xs|
  {
    if xs == [] then [] else [f(xs[0])] + MapSeq(f, xs[1..])
  }

  /**
   * A codec for one type: reading undoes writing, up to `canon`, for every value
   * in `ok`, and no encoding is shorter than `floor`.
   */
  ghost predicate Codec<T(!new)>(ok: T -> bool, enc: T -> Enc, read: (bytes, nat) -> Parsed<T>, canon: T -> T, floor: nat) {
    && (forall x, buf: bytes, off: nat :: ok(x) && Stands(buf, off, enc(x)) ==> read(buf, off) == Ok(canon(x), off + Size(enc(x))))
    && (forall x :: enc(x).Written? ==> floor <= |enc(x).data|)
  }

  lemma {:induction false} AllAtLeast<T(!new)>(ok: T -> bool, enc: T -> Enc, read: (bytes, nat) -> Parsed<T>, canon: T -> T, floor: nat, xs: seq<T>)
    requires Codec(ok, enc, read, canon, floor) && EncAll(enc, xs).Written?
    ensures |xs| * floor <= |EncAll(enc, xs).data|
  {
    if xs != [] {
      AllAtLeast(ok, enc, read, canon, floor, xs[1..]);
      assert |xs| * floor == |xs[1..]| * floor + floor;
    }
  }

  lemma OneRoundTrip<T(!new)>(ok: T -> bool, enc: T -> Enc, read: (bytes, nat) -> Parsed<T>, canon: T -> T, floor: nat, x: T, buf: bytes, off: nat)
    requires Codec(ok, enc, read, canon, floor) && ok(x) && enc(x).Written? && At(buf, off, enc(x).data)
    ensures read(buf, off) == Ok(canon(x), off + |enc(x).data|)
  {
  }

  predicate Every<T>(ok: T -> bool, xs: seq<T>) {
    xs == [] || (ok(xs[0]) && Every(ok, xs[1..]))
  }

  lemma {:induction false} AllRoundTrip<T(!new)>(ok: T -> bool, enc: T -> Enc, read: (bytes, nat) -> Parsed<T>, canon: T -> T, floor: nat,
                                                 xs: seq<T>, buf: bytes, off: nat)
    requires Codec(ok, enc, read, canon, floor) && Every(ok, xs)
    requires EncAll(enc, xs).Written? && At(buf, off, EncAll(enc, xs).data)
    ensures ReadAll(read, |xs|, buf, off) == Ok(MapSeq(canon, xs), off + |EncAll(enc, xs).data|)
    decreases |xs|
  {
    hide At, Codec;
    if xs != [] {
      var (first, rest) := (enc(xs[0]), EncAll(enc, xs[1..]));
      AtConcat(buf, off, first.data, rest.data);
      OneRoundTrip(ok, enc, read, canon, floor, xs[0], buf, off);
      AllRoundTrip(ok, enc, read, canon, floor, xs[1..], buf, off + |first.data|);
    }
  }

  function EncArray<T>(l: Limits, enc: T -> Enc, xs: seq<T>): Enc
    requires l.Valid()
  {
    EncArrayLength(l, |xs|).Then(EncAll(enc, xs))
  }

  /** An array whose reader takes null for empty. */
  function ReadArray<T>(l: Limits, read: (bytes, nat) -> Parsed<T>, floor: nat, buf: bytes, off: nat): Parsed<seq<T>> {
    var (n, next) :- ReadArrayLength(l, buf, off, floor);
    if n.None? then Ok([], next) else ReadAll(read, n.value, buf, next)
  }

  /**
   * Arrays round-trip whenever their elements do and the reader's floor does not
   * exceed an element's shortest encoding: the admission check then never
   * refuses what the encoder wrote.
   */
  lemma ArrayRoundTrip<T(!new)>(l: Limits, ok: T -> bool, enc: T -> Enc, read: (bytes, nat) -> Parsed<T>, canon: T -> T, floor: nat,
                                xs: seq<T>, buf: bytes, off: nat)
    requires l.Valid() && Codec(ok, enc, read, canon, floor) && Every(ok, xs)
    requires EncArray(l, enc, xs).Written? && At(buf, off, EncArray(l, enc, xs).data)
    ensures ReadArray(l, read, floor, buf, off) == Ok(MapSeq(canon, xs), off + |EncArray(l, enc, xs).data|)
  {
    hide At, Codec, EncAll, ReadAll, EncI32, ReadI32, Every;
    var (head, rest) := (EncArrayLength(l, |xs|), EncAll(enc, xs));
    AtConcat(buf, off, head.data, rest.data);
    AtFits(buf, off + 4, rest.data);
    I32RoundTrip(buf, off, |xs|);
    AllRoundTrip(ok, enc, read, canon, floor, xs, buf, off + 4);
    AllAtLeast(ok, enc, read, canon, floor, xs);
  }

  /** Under any other admission floor the array is read back exactly when the bytes that remain meet it. */
  lemma ArrayReadExactly<T(!new)>(l: Limits, ok: T -> bool, enc: T -> Enc, read: (bytes, nat) -> Parsed<T>, canon: T -> T, floor: nat,
                                  admission: nat, xs: seq<T>, buf: bytes, off: nat)
    requires l.Valid() && Codec(ok, enc, read, canon, floor) && Every(ok, xs)
    requires EncArray(l, enc, xs).Written? && At(buf, off, EncArray(l, enc, xs).data)
    ensures ReadArray(l, read, admission, buf, off)
      == if |xs| * admission <= |buf| - (off + 4) then Ok(MapSeq(canon, xs), off + |EncArray(l, enc, xs).data|) else Err(DecodingError)
  {
    hide At, Codec, EncAll, ReadAll, EncI32, ReadI32, Every;
    var (head, rest) := (EncArrayLength(l, |xs|), EncAll(enc, xs));
    AtConcat(buf, off, head.data, rest.data);
    AtFits(buf, off + 4, rest.data);
    I32RoundTrip(buf, off, |xs|);
    AllRoundTrip(ok, enc, read, canon, floor, xs, buf, off + 4);
  }
}
