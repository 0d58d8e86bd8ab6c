/** Variant and DataValue (variant.go): scalars, arrays with dimensions, and the recursive reader. */
module Variants {
  import opened Prelude
  import opened Ints
  import opened Wire
  import opened NodeIds

  /** What a Variant carries: one Go value, the elements of a slice, or nothing. */
  datatype Value =
    | NoValue
    | VBool(b: bool)
    | VSByte(s8: i8)
    | VByte(u8: byte)
    | VInt16(s16: i16)
    | VUInt16(v16: u16)
    | VInt32(s32: i32)
    | VUInt32(v32: u32)
    | VInt64(s64: i64)
    | VUInt64(v64: u64)
    | VFloat(f32: u32)
    | VDouble(f64: u64)
    | VString(text: bytes)
    | VDateTime(time: Instant)
    | VGuid(guid: AGuid)
    | VByteString(blob: bytes)
    | VNodeId(node: NodeId)
    | VExpanded(expanded: ExpandedNodeId)
    | VStatus(status: u32)
    | VName(name: QualifiedName)
    | VText(localized: LocalizedText)
    | VObject(object: ExtensionObject)
    | VDataValue(data: DataValue)
    | VDiagnostic(info: DiagnosticInfo)
    | Slice(elements: seq<Value>)

  datatype Variant = Variant(typeId: byte, value: Value, isArray: bool, dimensions: seq<i32>)

  datatype DataValue = DataValue(
    value: Variant,
    status: u32,
    sourceTime: Instant,
    sourcePicoseconds: u16,
    serverTime: Instant,
    serverPicoseconds: u16)

  const NULL_VARIANT := Variant(0, NoValue, false, [])

  // ---------------------------------------------------------------- one value

  /** The built-in type the adapter writes a value as; 0 for those it never writes. */
  function TypeOf(v: Value): byte {
    match v
    case VBool(_) => 1
    case VSByte(_) => 2
    case VByte(_) => 3
    case VInt16(_) => 4
    case VUInt16(_) => 5
    case VInt32(_) => 6
    case VUInt32(_) => 7
    case VInt64(_) => 8
    case VUInt64(_) => 9
    case VFloat(_) => 10
    case VDouble(_) => 11
    case VString(_) => 12
    case VDateTime(_) => 13
    case VGuid(_) => 14
    case VByteString(_) => 15
    case VNodeId(_) => 17
    case VStatus(_) => 19
    case VName(_) => 20
    case VText(_) => 21
    case VObject(_) => 22
    case _ => 0
  }

  function EncValue(l: Limits, v: Value): (e: Enc)
    requires l.Valid()
    ensures e.Written? ==> 1 <= |e.data|
  {
    match v
    case VBool(b) => EncBool(b)
    case VSByte(x) => EncByte(U8Of(x))
    case VByte(x) => EncByte(x)
    case VInt16(x) => EncU16(U16Of(x))
    case VUInt16(x) => EncU16(x)
    case VInt32(x) => EncI32(x)
    case VUInt32(x) => EncU32(x)
    case VInt64(x) => EncU64(U64Of(x))
    case VUInt64(x) => EncU64(x)
    case VFloat(x) => EncU32(Canon32(x))
    case VDouble(x) => EncU64(Canon64(x))
    case VString(x) => EncString(l, x)
    case VDateTime(x) => EncDateTime(x)
    case VGuid(x) => EncGuid(x)
    case VByteString(x) => EncByteString(l, x)
    case VNodeId(x) => EncNodeId(l, x)
    case VStatus(x) => EncU32(x)
    case VName(x) => EncQualifiedName(l, x)
    case VText(x) => EncLocalizedText(l, x)
    case VObject(x) => EncExtensionObject(l, x)
    case _ => Refused(EncodingError, [])
  }

  /** What a value is after a trip over the wire. */
  function CanonValue(v: Value): Value {
    match v
    case VFloat(x) => VFloat(Canon32(x))
    case VDouble(x) => VDouble(Canon64(x))
    case VDateTime(x) => VDateTime(CanonTime(x))
    case VObject(x) => VObject(CanonObject(x))
    case _ => v
  }

  // ---------------------------------------------------------------- the reader

  function Left(buf: bytes, off: nat): nat {
    if off <= |buf| then |buf| - off else 0
  }

  function Map<T, U>(p: Parsed<T>, f: T -> U): Parsed<U> {
    if p.Err? then Err(p.error) else Ok(f(p.value), p.next)
  }

  /** A blob whose null form carries no value. */
  function BlobValue(p: Parsed<Option<bytes>>, f: bytes -> Value): Parsed<Value> {
    if p.Err? then Err(p.error) else Ok(if p.value.Some? then f(p.value.value) else NoValue, p.next)
  }

  /** skipBuiltIn for the types whose reading does not recurse. */
  function ReadFlat(l: Limits, typeId: byte, buf: bytes, off: nat): (r: Parsed<Value>)
    ensures r.Ok? ==> off + 1 <= r.next <= |buf|
  {
    if typeId == 1 then Map(ReadBool(buf, off), x => VBool(x))
    else if typeId == 2 then Map(ReadByte(buf, off), x => VSByte(I8Of(x)))
    else if typeId == 3 then Map(ReadByte(buf, off), x => VByte(x))
    else if typeId == 4 then Map(ReadU16(buf, off), x => VInt16(I16Of(x)))
    else if typeId == 5 then Map(ReadU16(buf, off), x => VUInt16(x))
    else if typeId == 6 then Map(ReadI32(buf, off), x => VInt32(x))
    else if typeId == 7 then Map(ReadU32(buf, off), x => VUInt32(x))
    else if typeId == 8 then Map(ReadU64(buf, off), x => VInt64(I64Of(x)))
    else if typeId == 9 then Map(ReadU64(buf, off), x => VUInt64(x))
    else if typeId == 10 then Map(ReadU32(buf, off), x => VFloat(x))
    else if typeId == 11 then Map(ReadU64(buf, off), x => VDouble(x))
    else if typeId == 12 || typeId == 16 then BlobValue(ReadString(l, buf, off), x => VString(x))
    else if typeId == 13 then Map(ReadDateTime(buf, off), x => VDateTime(x))
    else if typeId == 14 then Map(ReadGuid(buf, off), x => VGuid(x))
    else if typeId == 17 then Map(ReadNodeId(l, buf, off), x => VNodeId(x))
    else if typeId == 18 then Map(ReadExpandedNodeId(l, buf, off), x => VExpanded(x))
    else if typeId == 19 then Map(ReadU32(buf, off), x => VStatus(x))
    else if typeId == 20 then Map(ReadQualifiedName(l, buf, off), x => VName(x))
    else if typeId == 21 then Map(ReadLocalizedText(l, buf, off), x => VText(x))
    else if typeId == 22 then Map(ReadExtensionObject(l, buf, off), x => VObject(x))
    else if typeId == 24 then Err(DecodingError)
    else if typeId == 25 then Map(ReadDiagnosticInfo(l, buf, off), x => VDiagnostic(x))
    else BlobValue(ReadByteString(l, buf, off), x => VByteString(x))
  }

  /** skipBuiltIn: a DataValue is the one built-in type that leads back to a Variant. */
  function SkipBuiltIn(l: Limits, typeId: byte, buf: bytes, off: nat): (r: Parsed<Value>)
    ensures r.Ok? ==> off + 1 <= r.next <= |buf|
    decreases Left(buf, off), 2
  {
    if typeId == 23 then
      var (d, next) :- ReadDataValue(l, buf, off);
      Ok(VDataValue(d), next)
    else ReadFlat(l, typeId, buf, off)
  }

  /** The element loop of ReadVariant. */
  function SkipMany(l: Limits, typeId: byte, n: nat, buf: bytes, off: nat): (r: Parsed<()>)
    ensures r.Ok? ==> off + n <= r.next && (off <= |buf| ==> r.next <= |buf|)
    decreases Left(buf, off), 3, n
  {
    if n == 0 then Ok((), off)
    else
      var (_, next) :- SkipBuiltIn(l, typeId, buf, off);
      SkipMany(l, typeId, n - 1, buf, next)
  }

  function Times(a: int, b: int): (p: int)
    ensures a >= 1 && b >= 1 ==> p >= a && p >= b
    ensures a >= 0 && b >= 0 ==> p >= 0
  {
    a * b
  }

  /** The dimension loop: it stops the moment the product passes the element count. */
  function CheckDimensions(count: nat, product: nat, elements: nat, buf: bytes, off: nat): (r: Parsed<()>)
    ensures r.Ok? ==> r.next == off + 4 * count && (off <= |buf| ==> r.next <= |buf|)
  {
    if count == 0 then
      if product == elements then Ok((), off) else Err(DecodingError)
    else
      var (d, next) :- ReadI32(buf, off);
      if d <= 0 || Times(product, d) > elements then Err(DecodingError)
      else CheckDimensions(count - 1, Times(product, d), elements, buf, next)
  }

  function ReadArrayDimensions(l: Limits, arrayLength: nat, buf: bytes, off: nat): (r: Parsed<()>)
    ensures r.Ok? ==> off + 4 <= r.next <= |buf|
  {
    var (count, next) :- ReadArrayLength(l, buf, off, 4);
    if count.None? || count.value == 0 then Err(DecodingError)
    else CheckDimensions(count.value, 1, arrayLength, buf, next)
  }

  function ReadVariant(l: Limits, buf: bytes, off: nat): (r: Parsed<Variant>)
    ensures r.Ok? ==> off + 1 <= r.next <= |buf|
    decreases Left(buf, off), 0
  {
    var (mask, o1) :- ReadByte(buf, off);
    var typeId := mask % 0x40;
    if typeId == 0 then Ok(NULL_VARIANT, o1)
    else if typeId > 31 then Err(DecodingError)
    else if mask >= 0x80 then
      var (length, o2) :- ReadArrayLength(l, buf, o1, 1);
      var n := if length.Some? then length.value else 0;
      var (_, o3) :- SkipMany(l, typeId, n, buf, o2);
      if mask >= 0xC0 then
        var (_, o4) :- ReadArrayDimensions(l, n, buf, o3);
        Ok(Variant(typeId, NoValue, true, []), o4)
      else Ok(Variant(typeId, NoValue, true, []), o3)
    else if mask >= 0x40 then Err(DecodingError)
    else
      var (v, o2) :- SkipBuiltIn(l, typeId, buf, o1);
      Ok(Variant(typeId, v, false, []), o2)
  }

  function ClampPicoseconds(v: u16): u16 {
    if v > 9999 then 9999 else v
  }

  /** An optional field of a DataValue: its reader, or a default and no bytes. */
  function Optional<T>(present: bool, p: Parsed<T>, default: T, off: nat): Parsed<T> {
    if present then p else Ok(default, off)
  }

  function ReadDataValue(l: Limits, buf: bytes, off: nat): (r: Parsed<DataValue>)
    ensures r.Ok? ==> off + 1 <= r.next <= |buf|
    decreases Left(buf, off), 1
  {
    var (mask, o1) :- ReadByte(buf, off);
    var (value, o2) :- if Has(mask, 0) then ReadVariant(l, buf, o1) else Ok(NULL_VARIANT, o1);
    ReadStamps(mask, value, buf, o2)
  }

  /** The fixed-width fields of a DataValue after its Variant. */
  function ReadStamps(mask: byte, value: Variant, buf: bytes, off: nat): (r: Parsed<DataValue>)
    ensures r.Ok? ==> off <= r.next && (off <= |buf| ==> r.next <= |buf|)
  {
    var (status, o3) :- Optional(Has(mask, 1), ReadU32(buf, off), 0, off);
    var (sourceTime, o4) :- Optional(Has(mask, 2), ReadDateTime(buf, o3), ZERO_TIME, o3);
    var (sourcePico, o5) :- Optional(Has(mask, 4), ReadU16(buf, o4), 0, o4);
    var (serverTime, o6) :- Optional(Has(mask, 3), ReadDateTime(buf, o5), ZERO_TIME, o5);
    var (serverPico, o7) :- Optional(Has(mask, 5), ReadU16(buf, o6), 0, o6);
    Ok(DataValue(value, status, sourceTime, ClampPicoseconds(sourcePico), serverTime, ClampPicoseconds(serverPico)), o7)
  }

  // ---------------------------------------------------------------- the writer

  /** The slice types variantArrayLength knows: every element of the one declared type, Boolean to String. */
  predicate MatchesType(v: Variant) {
    v.value.Slice? && 1 <= v.typeId <= 12 && OfType(v.value.elements, v.typeId)
  }

  predicate OfType(vs: seq<Value>, typeId: byte) {
    forall i :: 0 <= i < |vs| ==> TypeOf(vs[i]) == typeId
  }

  function EncDimensions(dims: seq<i32>): (e: Enc)
    ensures e.Written? && |e.data| == 4 * |dims|
  {
    if dims == [] then Written([]) else EncI32(dims[0]).Then(EncDimensions(dims[1..]))
  }

  function EncElements(l: Limits, vs: seq<Value>): (e: Enc)
    requires l.Valid()
    ensures e.Written? ==> |vs| <= |e.data|
  {
    if vs == [] then Written([]) else EncValue(l, vs[0]).Then(EncElements(l, vs[1..]))
  }

  predicate Multidimensional(v: Variant) { |v.dimensions| > 1 }

  /** More elements or dimensions than an Int32 counts never fit in a message. */
  predicate Countable(v: Variant)
    requires v.value.Slice?
  {
    |v.value.elements| < 0x8000_0000 && |v.dimensions| < 0x8000_0000
  }

  function EncShape(v: Variant): (e: Enc)
    requires |v.dimensions| < 0x8000_0000
    ensures e.Written?
  {
    if Multidimensional(v) then EncI32(|v.dimensions|).Then(EncDimensions(v.dimensions)) else Written([])
  }

  /** writeVariantArray. */
  function EncVariantArray(l: Limits, v: Variant): (e: Enc)
    requires l.Valid()
    ensures e.Written? ==> 1 <= |e.data|
  {
    if !MatchesType(v) then Refused(EncodingError, [])
    else if !Countable(v) then Refused(LimitsExceeded, [])
    else
      EncByte(ArrayMask(v)).Then(EncI32(|v.value.elements|))
        .Then(EncElements(l, v.value.elements)).Then(EncShape(v))
  }

  /** WriteVariant: a value whose type is not the declared one is refused. */
  function EncVariant(l: Limits, v: Variant): (e: Enc)
    requires l.Valid()
    ensures e.Written? ==> 1 <= |e.data|
  {
    if v.isArray then EncVariantArray(l, v)
    else if v.typeId == 0 then EncByte(0)
    else if v.typeId > 25 then Refused(EncodingError, [])
    else EncByte(v.typeId).Then(if TypeOf(v.value) == v.typeId then EncValue(l, v.value) else Refused(EncodingError, []))
  }

  /** What a Variant is after a trip: an array is recognised but its elements are not kept. */
  function CanonVariant(v: Variant): Variant {
    if v.typeId == 0 then NULL_VARIANT
    else if v.isArray then Variant(v.typeId, NoValue, true, [])
    else Variant(v.typeId, CanonValue(v.value), false, [])
  }

  /** AtDateTimeBound: one of the two values that mean "outside the range". */
  predicate AtBound(t: Instant) { EncodeDateTime(t) == 0 || EncodeDateTime(t) == DATETIME_MAX }

  predicate HasPicoseconds(t: Instant, picoseconds: u16) {
    t != ZERO_TIME && picoseconds != 0 && !AtBound(t)
  }

  function DataValuePresence(d: DataValue): (bits: seq<bool>)
    ensures |bits| == 6
  {
    [d.value.typeId != 0, d.status != 0, d.sourceTime != ZERO_TIME, d.serverTime != ZERO_TIME,
     HasPicoseconds(d.sourceTime, d.sourcePicoseconds), HasPicoseconds(d.serverTime, d.serverPicoseconds)]
  }

  function When(present: bool, e: Enc): Enc {
    if present then e else Written([])
  }

  function EncStamps(d: DataValue): (e: Enc)
    ensures e.Written?
  {
    When(d.status != 0, EncU32(d.status))
      .Then(When(d.sourceTime != ZERO_TIME, EncDateTime(d.sourceTime)))
      .Then(When(HasPicoseconds(d.sourceTime, d.sourcePicoseconds), EncU16(d.sourcePicoseconds)))
      .Then(When(d.serverTime != ZERO_TIME, EncDateTime(d.serverTime)))
      .Then(When(HasPicoseconds(d.serverTime, d.serverPicoseconds), EncU16(d.serverPicoseconds)))
  }

  /** WriteDataValue: a field is written only when it says something. */
  function EncDataValue(l: Limits, d: DataValue): (e: Enc)
    requires l.Valid()
    ensures e.Written? ==> 1 <= |e.data|
  {
    EncByte(Mask(DataValuePresence(d))).Then(When(d.value.typeId != 0, EncVariant(l, d.value))).Then(EncStamps(d))
  }

  function CanonStamp(t: Instant): Instant {
    if t == ZERO_TIME then t else CanonTime(t)
  }

  function CanonPicoseconds(t: Instant, picoseconds: u16): u16 {
    if HasPicoseconds(t, picoseconds) then ClampPicoseconds(picoseconds) else 0
  }

  function CanonDataValue(d: DataValue): DataValue {
    DataValue(CanonVariant(d.value), d.status, CanonStamp(d.sourceTime), CanonPicoseconds(d.sourceTime, d.sourcePicoseconds),
              CanonStamp(d.serverTime), CanonPicoseconds(d.serverTime, d.serverPicoseconds))
  }

  // ---------------------------------------------------------------- reading undoes writing

  lemma NumberRoundTrip(l: Limits, buf: bytes, off: nat, v: Value)
    requires l.Valid() && 1 <= TypeOf(v) <= 11 && At(buf, off, EncValue(l, v).data)
    ensures ReadFlat(l, TypeOf(v), buf, off) == Ok(CanonValue(v), off + |EncValue(l, v).data|)
  {
    hide At, EncBool, EncByte, EncU16, EncI32, EncU32, EncU64, ReadBool, ReadByte, ReadU16, ReadI32, ReadU32, ReadU64, Canon32, Canon64;
    match v
    case VBool(x) => BoolRoundTrip(buf, off, x);
    case VSByte(x) => ByteRoundTrip(buf, off, U8Of(x));
    case VByte(x) => ByteRoundTrip(buf, off, x);
    case VInt16(x) => U16RoundTrip(buf, off, U16Of(x));
    case VUInt16(x) => U16RoundTrip(buf, off, x);
    case VInt32(x) => I32RoundTrip(buf, off, x);
    case VUInt32(x) => U32RoundTrip(buf, off, x);
    case VInt64(x) => U64RoundTrip(buf, off, U64Of(x));
    case VUInt64(x) => U64RoundTrip(buf, off, x);
    case VFloat(x) => U32RoundTrip(buf, off, Canon32(x));
    case VDouble(x) => U64RoundTrip(buf, off, Canon64(x));
  }

  lemma StructureRoundTrip(l: Limits, buf: bytes, off: nat, v: Value)
    requires l.Valid() && 12 <= TypeOf(v) && EncValue(l, v).Written? && At(buf, off, EncValue(l, v).data)
    ensures ReadFlat(l, TypeOf(v), buf, off) == Ok(CanonValue(v), off + |EncValue(l, v).data|)
  {
    hide At, EncBlob, ReadBlob, EncU32, ReadU32, EncDateTime, ReadDateTime, EncGuid, ReadGuid, EncNodeId, ReadNodeId, EncQualifiedName,
      ReadQualifiedName, EncLocalizedText, ReadLocalizedText, EncExtensionObject, ReadExtensionObject, CanonObject, CanonTime;
    match v
    case VString(x) => BlobRoundTrip(buf, off, x, l.maxStringBytes);
    case VDateTime(x) => DateTimeWireRoundTrip(buf, off, x);
    case VGuid(x) => GuidRoundTrip(buf, off, x);
    case VByteString(x) => BlobRoundTrip(buf, off, x, l.maxByteStringBytes);
    case VNodeId(x) => NodeIdRoundTrip(l, buf, off, x);
    case VStatus(x) => U32RoundTrip(buf, off, x);
    case VName(x) => QualifiedNameRoundTrip(l, buf, off, x);
    case VText(x) => LocalizedTextRoundTrip(l, buf, off, x);
    case VObject(x) => ExtensionObjectRoundTrip(l, buf, off, x);
  }

  /** Each built-in value the adapter writes is the one skipBuiltIn reads, up to NaN, DateTime and an absent body. */
  lemma ValueRoundTrip(l: Limits, buf: bytes, off: nat, v: Value)
    requires l.Valid() && EncValue(l, v).Written? && At(buf, off, EncValue(l, v).data)
    ensures SkipBuiltIn(l, TypeOf(v), buf, off) == Ok(CanonValue(v), off + |EncValue(l, v).data|)
    ensures 1 <= TypeOf(v) <= 22
  {
    WrittenTypes(l, v);
    hide ReadFlat, EncValue, At, TypeOf, CanonValue;
    if TypeOf(v) <= 11 {
      NumberRoundTrip(l, buf, off, v);
    } else {
      StructureRoundTrip(l, buf, off, v);
    }
  }

  lemma WrittenTypes(l: Limits, v: Value)
    requires l.Valid()
    ensures EncValue(l, v).Written? ==> 1 <= TypeOf(v) <= 22
  {
    hide EncBlob, EncU16, EncU32, EncU64, EncI32, EncDateTime, EncGuid, EncNodeId, EncQualifiedName, EncLocalizedText, EncExtensionObject;
  }

  lemma ScalarVariantRoundTrip(l: Limits, buf: bytes, off: nat, v: Variant)
    requires l.Valid() && !v.isArray && EncVariant(l, v).Written? && At(buf, off, EncVariant(l, v).data)
    ensures ReadVariant(l, buf, off) == Ok(CanonVariant(v), off + |EncVariant(l, v).data|)
  {
    hide At, EncValue, SkipBuiltIn, ReadByte, TypeOf, CanonValue;
    if v.typeId == 0 {
      ByteRoundTrip(buf, off, 0);
    } else {
      AtConcat(buf, off, EncByte(v.typeId).data, EncValue(l, v.value).data);
      ByteRoundTrip(buf, off, v.typeId);
      ValueRoundTrip(l, buf, off + 1, v.value);
    }
  }

  lemma SkipOne(l: Limits, typeId: byte, n: nat, buf: bytes, off: nat)
    requires n > 0 && SkipBuiltIn(l, typeId, buf, off).Ok?
    ensures SkipMany(l, typeId, n, buf, off) == SkipMany(l, typeId, n - 1, buf, SkipBuiltIn(l, typeId, buf, off).next)
  {
    hide SkipBuiltIn;
  }

  lemma ElementStep(l: Limits, buf: bytes, off: nat, typeId: byte, vs: seq<Value>)
    requires l.Valid() && vs != [] && TypeOf(vs[0]) == typeId
    requires EncElements(l, vs).Written? && At(buf, off, EncElements(l, vs).data)
    ensures var next := off + |EncValue(l, vs[0]).data|; var rest := EncElements(l, vs[1..]);
      && rest.Written? && At(buf, next, rest.data) && |EncElements(l, vs).data| == next - off + |rest.data|
      && SkipMany(l, typeId, |vs|, buf, off) == SkipMany(l, typeId, |vs| - 1, buf, next)
  {
    hide At, EncValue, TypeOf, SkipBuiltIn, SkipMany, CanonValue;
    var rest := EncElements(l, vs[1..]);
    assert EncElements(l, vs) == Written(EncValue(l, vs[0]).data + rest.data) && rest.Written? && EncValue(l, vs[0]).Written?;
    AtConcat(buf, off, EncValue(l, vs[0]).data, rest.data);
    ValueRoundTrip(l, buf, off, vs[0]);
    SkipOne(l, typeId, |vs|, buf, off);
  }

  /** The element loop skips exactly what the element loop of the writer wrote. */
  lemma {:induction false} ElementsRoundTrip(l: Limits, buf: bytes, off: nat, typeId: byte, vs: seq<Value>)
    requires l.Valid() && EncElements(l, vs).Written? && At(buf, off, EncElements(l, vs).data)
    requires OfType(vs, typeId)
    ensures SkipMany(l, typeId, |vs|, buf, off) == Ok((), off + |EncElements(l, vs).data|)
    decreases |vs|
  {
    hide At, EncValue, TypeOf;
    if vs != [] {
      assert TypeOf(vs[0]) == typeId && OfType(vs[1..], typeId);
      hide EncElements, SkipMany, OfType;
      ElementStep(l, buf, off, typeId, vs);
      ElementsRoundTrip(l, buf, off + |EncValue(l, vs[0]).data|, typeId, vs[1..]);
    }
  }

  // ---------------------------------------------------------------- array dimensions

  /** The unbounded product. */
  function Product(dims: seq<i32>): int {
    if dims == [] then 1 else Times(dims[0], Product(dims[1..]))
  }

  predicate AllPositive(dims: seq<i32>) {
    dims == [] || (dims[0] > 0 && AllPositive(dims[1..]))
  }

  lemma {:induction false} ProductPositive(dims: seq<i32>)
    requires AllPositive(dims)
    ensures Product(dims) >= 1
  {
    hide Times;
    if dims != [] {
      ProductPositive(dims[1..]);
    }
  }

  lemma TimesLaws(a: int, b: int, c: int)
    ensures Times(a, Times(b, c)) == Times(Times(a, b), c)
  {
  }

  lemma TimesOne(a: int)
    ensures Times(1, a) == a && Times(a, 1) == a
  {
  }

  lemma DimensionStep(dims: seq<i32>, product: nat, elements: nat, buf: bytes, off: nat)
    requires dims != [] && At(buf, off, EncDimensions(dims).data)
    ensures At(buf, off + 4, EncDimensions(dims[1..]).data)
    ensures var d := dims[0];
      CheckDimensions(|dims|, product, elements, buf, off)
      == if d <= 0 || Times(product, d) > elements then Err(DecodingError)
         else CheckDimensions(|dims| - 1, Times(product, d), elements, buf, off + 4)
  {
    hide At, ReadI32, Times, EncI32;
    AtConcat(buf, off, EncI32(dims[0]).data, EncDimensions(dims[1..]).data);
    I32RoundTrip(buf, off, dims[0]);
  }

  /**
   * The dimension loop, which stops early so that its Int64 product cannot wrap,
   * accepts exactly the shapes that are positive and whose true product is the
   * element count.
   */
  lemma {:induction false} DimensionsAccepted(dims: seq<i32>, product: nat, elements: nat, buf: bytes, off: nat)
    requires 1 <= product && At(buf, off, EncDimensions(dims).data)
    ensures CheckDimensions(|dims|, product, elements, buf, off).Ok? <==> AllPositive(dims) && Times(product, Product(dims)) == elements
    decreases |dims|
  {
    hide Times, At;
    TimesOne(product);
    if dims != [] {
      var (d, rest) := (dims[0], dims[1..]);
      DimensionStep(dims, product, elements, buf, off);
      hide CheckDimensions, EncDimensions;
      TimesLaws(product, d, Product(rest));
      if d > 0 && Times(product, d) <= elements {
        DimensionsAccepted(rest, Times(product, d), elements, buf, off + 4);
      } else if AllPositive(dims) {
        ProductPositive(rest);
      }
    }
  }

  lemma AllDimensions(dims: seq<i32>, elements: nat, buf: bytes, off: nat)
    requires At(buf, off, EncDimensions(dims).data)
    ensures CheckDimensions(|dims|, 1, elements, buf, off).Ok? <==> AllPositive(dims) && Product(dims) == elements
  {
    hide *;
    DimensionsAccepted(dims, 1, elements, buf, off);
    TimesOne(Product(dims));
  }

  /** The shape a reader holds an array to. */
  predicate Readable(l: Limits, v: Variant) {
    v.isArray && v.typeId != 0 ==>
      && v.value.Slice? && |v.value.elements| <= l.maxArrayLength
      && (Multidimensional(v) ==>
           |v.dimensions| <= l.maxArrayLength && AllPositive(v.dimensions) && Product(v.dimensions) == |v.value.elements|)
  }

  /** What the admission check makes of a length that was read. */
  lemma ArrayLengthRead(l: Limits, buf: bytes, off: nat, n: i32, floor: nat)
    requires ReadI32(buf, off) == Ok(n, off + 4) && 0 <= n && off + 4 <= |buf|
    ensures n <= l.maxArrayLength && n * floor <= |buf| - (off + 4) ==> ReadArrayLength(l, buf, off, floor) == Ok(Some(n), off + 4)
    ensures n > l.maxArrayLength ==> ReadArrayLength(l, buf, off, floor).Err?
  {
    hide ReadI32;
  }

  lemma DimensionCountRead(l: Limits, buf: bytes, off: nat, count: nat, n: nat)
    requires 1 < count && ReadArrayLength(l, buf, off, 4) == Ok(Some(count), off + 4)
    ensures ReadArrayDimensions(l, n, buf, off) == CheckDimensions(count, 1, n, buf, off + 4)
  {
    hide CheckDimensions, ReadArrayLength;
  }

  lemma DimensionCountRefused(l: Limits, buf: bytes, off: nat, n: nat)
    requires ReadArrayLength(l, buf, off, 4).Err?
    ensures ReadArrayDimensions(l, n, buf, off).Err?
  {
    hide CheckDimensions, ReadArrayLength;
  }

  lemma DimensionCountAt(l: Limits, buf: bytes, off: nat, dims: seq<i32>)
    requires l.Valid() && |dims| < 0x8000_0000
    requires At(buf, off, EncI32(|dims|).data + EncDimensions(dims).data)
    ensures At(buf, off + 4, EncDimensions(dims).data)
    ensures |dims| <= l.maxArrayLength ==> ReadArrayLength(l, buf, off, 4) == Ok(Some(|dims|), off + 4)
    ensures |dims| > l.maxArrayLength ==> ReadArrayLength(l, buf, off, 4).Err?
  {
    hide At, EncDimensions, ReadI32, EncI32, ReadArrayLength;
    AtConcat(buf, off, EncI32(|dims|).data, EncDimensions(dims).data);
    AtFits(buf, off + 4, EncDimensions(dims).data);
    I32RoundTrip(buf, off, |dims|);
    ArrayLengthRead(l, buf, off, |dims|, 4);
  }

  lemma ShapeRead(l: Limits, buf: bytes, off: nat, dims: seq<i32>, n: nat)
    requires l.Valid() && 1 < |dims| < 0x8000_0000
    requires At(buf, off, EncI32(|dims|).data + EncDimensions(dims).data)
    ensures ReadArrayDimensions(l, n, buf, off).Ok? <==> |dims| <= l.maxArrayLength && AllPositive(dims) && Product(dims) == n
    ensures ReadArrayDimensions(l, n, buf, off).Ok? ==> ReadArrayDimensions(l, n, buf, off).next == off + 4 + 4 * |dims|
  {
    hide *;
    DimensionCountAt(l, buf, off, dims);
    if |dims| <= l.maxArrayLength {
      DimensionCountRead(l, buf, off, |dims|, n);
      AllDimensions(dims, n, buf, off + 4);
    } else {
      DimensionCountRefused(l, buf, off, n);
    }
  }

  function ArrayMask(v: Variant): (m: int)
    ensures v.typeId <= 12 ==> 0x80 <= m < 0x100 && m % 0x40 == v.typeId
    ensures v.typeId <= 12 ==> (m >= 0xC0 <==> Multidimensional(v))
  {
    v.typeId + (if Multidimensional(v) then 0xC0 else 0x80)
  }

  /** What the reader finds at the head of an array Variant: its mask and its length. */
  lemma ArrayHead(l: Limits, buf: bytes, off: nat, v: Variant)
    requires l.Valid() && v.isArray && EncVariant(l, v).Written? && At(buf, off, EncVariant(l, v).data)
    ensures MatchesType(v) && Countable(v)
    ensures ReadByte(buf, off) == Ok(ArrayMask(v), off + 1) && ReadI32(buf, off + 1) == Ok(|v.value.elements|, off + 5)
    ensures var vs := EncElements(l, v.value.elements);
      && vs.Written? && At(buf, off + 5, vs.data) && At(buf, off + 5 + |vs.data|, EncShape(v).data)
      && off + 5 + |vs.data| + |EncShape(v).data| == off + |EncVariant(l, v).data| <= |buf|
  {
    assert off + |EncVariant(l, v).data| <= |buf|;
    var vs := EncElements(l, v.value.elements);
    var (a, b) := (EncByte(ArrayMask(v)), EncI32(|v.value.elements|));
    assert EncVariant(l, v) == a.Then(b).Then(vs).Then(EncShape(v));
    hide At, EncVariant, EncElements, EncShape, EncI32, ReadI32, ReadByte;
    AtConcat(buf, off, a.data + b.data + vs.data, EncShape(v).data);
    AtThree(buf, off, a.data, b.data, vs.data);
    ByteRoundTrip(buf, off, ArrayMask(v));
    I32RoundTrip(buf, off + 1, |v.value.elements|);
  }

  /** ReadVariant on an array, once its head is known. */
  lemma ReadArrayVariant(l: Limits, buf: bytes, off: nat, mask: byte, n: nat, end: nat)
    requires ReadByte(buf, off) == Ok(mask, off + 1) && 0x80 <= mask && 1 <= mask % 0x40 <= 12
    requires ReadArrayLength(l, buf, off + 1, 1) == Ok(Some(n), off + 5)
    requires SkipMany(l, mask % 0x40, n, buf, off + 5) == Ok((), end)
    ensures ReadVariant(l, buf, off)
      == if mask >= 0xC0 then
           var p := ReadArrayDimensions(l, n, buf, end);
           if p.Ok? then Ok(Variant(mask % 0x40, NoValue, true, []), p.next) else Err(p.error)
         else Ok(Variant(mask % 0x40, NoValue, true, []), end)
  {
    hide ReadByte, ReadArrayLength, SkipMany, SkipBuiltIn, ReadArrayDimensions;
  }

  lemma LongArrayRefused(l: Limits, buf: bytes, off: nat, mask: byte)
    requires ReadByte(buf, off) == Ok(mask, off + 1) && 0x80 <= mask && 1 <= mask % 0x40 <= 12
    requires ReadArrayLength(l, buf, off + 1, 1).Err?
    ensures ReadVariant(l, buf, off).Err?
  {
    hide ReadByte, ReadArrayLength, SkipMany, SkipBuiltIn, ReadArrayDimensions;
  }

  lemma ShapeOf(v: Variant)
    requires |v.dimensions| < 0x8000_0000
    ensures Multidimensional(v) ==> EncShape(v).data == EncI32(|v.dimensions|).data + EncDimensions(v.dimensions).data
    ensures |EncShape(v).data| == if Multidimensional(v) then 4 + 4 * |v.dimensions| else 0
  {
  }

  /**
   * An array Variant the writer produced is read back, as a marker that an array
   * was there, exactly when its length is within the limit and its dimensions
   * describe that length; any other is refused, never misread.
   */
  lemma ArrayVariantReadExactly(l: Limits, buf: bytes, off: nat, v: Variant)
    requires l.Valid() && v.isArray && EncVariant(l, v).Written? && At(buf, off, EncVariant(l, v).data)
    ensures ReadVariant(l, buf, off).Ok? <==> Readable(l, v)
    ensures Readable(l, v) ==> ReadVariant(l, buf, off) == Ok(CanonVariant(v), off + |EncVariant(l, v).data|)
  {
    hide At, EncElements, SkipMany, ReadByte, ReadI32, EncVariant, ReadVariant, EncShape, ReadArrayDimensions, TypeOf, AllPositive, Product,
      ReadArrayLength, ArrayMask;
    ArrayHead(l, buf, off, v);
    ShapeOf(v);
    var n := |v.value.elements|;
    var end := off + 5 + |EncElements(l, v.value.elements).data|;
    ArrayLengthRead(l, buf, off + 1, n, 1);
    if n <= l.maxArrayLength {
      ElementsRoundTrip(l, buf, off + 5, v.typeId, v.value.elements);
      ReadArrayVariant(l, buf, off, ArrayMask(v), n, end);
      if Multidimensional(v) {
        ShapeRead(l, buf, end, v.dimensions, n);
      }
    } else {
      LongArrayRefused(l, buf, off, ArrayMask(v));
    }
  }

  /** One Int32 with the dimensions two by two is written, and refused by the reader. */
  lemma InconsistentDimensionsAreRefused(l: Limits, x: i32)
    requires l.Valid()
    ensures var v := Variant(6, Slice([VInt32(x)]), true, [2, 2]);
      EncVariant(l, v).Written? && ReadVariant(l, EncVariant(l, v).data, 0).Err?
  {
    hide EncI32, At;
    var v := Variant(6, Slice([VInt32(x)]), true, [2, 2]);
    assert v.value.elements[1..] == [] && EncElements(l, []).Written?;
    assert EncElements(l, v.value.elements).Written?;
    var e := EncVariant(l, v);
    WholeBuffer(e.data);
    hide ReadVariant, EncVariant;
    ArrayVariantReadExactly(l, e.data, 0, v);
    assert Product(v.dimensions) == 4 by {
      assert v.dimensions[1..] == [2] && v.dimensions[1..][1..] == [];
      assert Product([]) == 1;
      assert Product([2]) == Times(2, 1);
    }
  }

  lemma WholeBuffer(data: bytes)
    ensures At(data, 0, data)
  {
    assert data[0..|data|] == data;
  }

  /** Every Variant that can be read at all reads back as itself, up to normalisation. */
  lemma VariantRoundTrip(l: Limits, buf: bytes, off: nat, v: Variant)
    requires l.Valid() && Readable(l, v) && EncVariant(l, v).Written? && At(buf, off, EncVariant(l, v).data)
    ensures ReadVariant(l, buf, off) == Ok(CanonVariant(v), off + |EncVariant(l, v).data|)
  {
    hide At, EncVariant, ReadVariant, Readable, CanonVariant;
    if v.isArray {
      ArrayVariantReadExactly(l, buf, off, v);
    } else {
      ScalarVariantRoundTrip(l, buf, off, v);
    }
  }

  // ---------------------------------------------------------------- DataValue

  lemma StampMask(d: DataValue)
    ensures var m := Mask(DataValuePresence(d));
      && Has(m, 0) == (d.value.typeId != 0) && Has(m, 1) == (d.status != 0)
      && Has(m, 2) == (d.sourceTime != ZERO_TIME) && Has(m, 3) == (d.serverTime != ZERO_TIME)
      && Has(m, 4) == HasPicoseconds(d.sourceTime, d.sourcePicoseconds)
      && Has(m, 5) == HasPicoseconds(d.serverTime, d.serverPicoseconds)
  {
    hide Has, Mask, HasPicoseconds;
    forall k | 0 <= k < 6 ensures Has(Mask(DataValuePresence(d)), k) == DataValuePresence(d)[k] {
      MaskHas(DataValuePresence(d), k);
    }
  }

  lemma AtFive(buf: bytes, off: nat, a: bytes, b: bytes, c: bytes, d: bytes, e: bytes)
    requires At(buf, off, a + b + c + d + e)
    ensures At(buf, off, a) && At(buf, off + |a|, b) && At(buf, off + |a| + |b|, c)
    ensures At(buf, off + |a| + |b| + |c|, d) && At(buf, off + |a| + |b| + |c| + |d|, e)
  {
    hide At;
    AtConcat(buf, off, a + b + c + d, e);
    AtConcat(buf, off, a + b + c, d);
    AtThree(buf, off, a, b, c);
  }

  lemma TimeRoundTrip(buf: bytes, off: nat, t: Instant)
    requires At(buf, off, When(t != ZERO_TIME, EncDateTime(t)).data)
    ensures Optional(t != ZERO_TIME, ReadDateTime(buf, off), ZERO_TIME, off) == Ok(CanonStamp(t), off + |When(t != ZERO_TIME, EncDateTime(t)).data|)
  {
    hide EncDateTime, ReadDateTime, CanonTime;
    if t != ZERO_TIME {
      DateTimeWireRoundTrip(buf, off, t);
    }
  }

  lemma PicosecondsRoundTrip(buf: bytes, off: nat, present: bool, p: u16)
    requires At(buf, off, When(present, EncU16(p)).data)
    ensures Optional(present, ReadU16(buf, off), 0, off) == Ok(if present then p else 0, off + |When(present, EncU16(p)).data|)
  {
    if present {
      U16RoundTrip(buf, off, p);
    }
  }

  lemma StatusRoundTrip(buf: bytes, off: nat, s: u32)
    requires At(buf, off, When(s != 0, EncU32(s)).data)
    ensures Optional(s != 0, ReadU32(buf, off), 0, off) == Ok(s, off + |When(s != 0, EncU32(s)).data|)
  {
    if s != 0 {
      U32RoundTrip(buf, off, s);
    }
  }

  /** The five fixed-width fields, read one by one. */
  lemma StampFields(buf: bytes, off: nat, d: DataValue)
    requires At(buf, off, EncStamps(d).data)
    ensures var source, server := HasPicoseconds(d.sourceTime, d.sourcePicoseconds), HasPicoseconds(d.serverTime, d.serverPicoseconds);
      var o3 := off + |When(d.status != 0, EncU32(d.status)).data|;
      var o4 := o3 + |When(d.sourceTime != ZERO_TIME, EncDateTime(d.sourceTime)).data|;
      var o5 := o4 + |When(source, EncU16(d.sourcePicoseconds)).data|;
      var o6 := o5 + |When(d.serverTime != ZERO_TIME, EncDateTime(d.serverTime)).data|;
      && Optional(d.status != 0, ReadU32(buf, off), 0, off) == Ok(d.status, o3)
      && Optional(d.sourceTime != ZERO_TIME, ReadDateTime(buf, o3), ZERO_TIME, o3) == Ok(CanonStamp(d.sourceTime), o4)
      && Optional(source, ReadU16(buf, o4), 0, o4) == Ok(if source then d.sourcePicoseconds else 0, o5)
      && Optional(d.serverTime != ZERO_TIME, ReadDateTime(buf, o5), ZERO_TIME, o5) == Ok(CanonStamp(d.serverTime), o6)
      && Optional(server, ReadU16(buf, o6), 0, o6) == Ok(if server then d.serverPicoseconds else 0, off + |EncStamps(d).data|)
  {
    hide At, Has, Mask, HasPicoseconds, Optional, EncDateTime, ReadDateTime, EncU16, ReadU16, EncU32, ReadU32, CanonStamp;
    var (source, server) := (HasPicoseconds(d.sourceTime, d.sourcePicoseconds), HasPicoseconds(d.serverTime, d.serverPicoseconds));
    var a := When(d.status != 0, EncU32(d.status));
    var b := When(d.sourceTime != ZERO_TIME, EncDateTime(d.sourceTime));
    var c := When(source, EncU16(d.sourcePicoseconds));
    var s := When(d.serverTime != ZERO_TIME, EncDateTime(d.serverTime));
    var p := When(server, EncU16(d.serverPicoseconds));
    assert EncStamps(d) == Written(a.data + b.data + c.data + s.data + p.data);
    hide When, EncStamps;
    AtFive(buf, off, a.data, b.data, c.data, s.data, p.data);
    StatusRoundTrip(buf, off, d.status);
    TimeRoundTrip(buf, off + |a.data|, d.sourceTime);
    PicosecondsRoundTrip(buf, off + |a.data| + |b.data|, source, d.sourcePicoseconds);
    TimeRoundTrip(buf, off + |a.data| + |b.data| + |c.data|, d.serverTime);
    PicosecondsRoundTrip(buf, off + |a.data| + |b.data| + |c.data| + |s.data|, server, d.serverPicoseconds);
  }

  lemma StampsRoundTrip(buf: bytes, off: nat, d: DataValue, value: Variant)
    requires At(buf, off, EncStamps(d).data)
    ensures ReadStamps(Mask(DataValuePresence(d)), value, buf, off) == Ok(CanonDataValue(d).(value := value), off + |EncStamps(d).data|)
  {
    hide At, Has, Mask, HasPicoseconds, When, Optional, EncDateTime, ReadDateTime, EncU16, ReadU16, EncU32, ReadU32, CanonStamp, CanonVariant,
      EncStamps, DataValuePresence;
    StampMask(d);
    StampFields(buf, off, d);
  }

  lemma DataValueRoundTrip(l: Limits, buf: bytes, off: nat, d: DataValue)
    requires l.Valid() && Readable(l, d.value) && EncDataValue(l, d).Written? && At(buf, off, EncDataValue(l, d).data)
    ensures ReadDataValue(l, buf, off) == Ok(CanonDataValue(d), off + |EncDataValue(l, d).data|)
  {
    StampMask(d);
    hide At, Has, Mask, EncVariant, ReadVariant, EncStamps, ReadStamps, ReadByte, Readable, DataValuePresence, HasPicoseconds;
    var mask := Mask(DataValuePresence(d));
    var a := When(d.value.typeId != 0, EncVariant(l, d.value));
    AtThree(buf, off, EncByte(mask).data, a.data, EncStamps(d).data);
    ByteRoundTrip(buf, off, mask);
    if d.value.typeId != 0 {
      VariantRoundTrip(l, buf, off + 1, d.value);
    }
    StampsRoundTrip(buf, off + 1 + |a.data|, d, CanonVariant(d.value));
  }
}
