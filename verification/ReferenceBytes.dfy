/**
 * The bytes themselves: each type as section 5.2 of OPC 10000-6 lays it out and
 * each message field by field, without an encoder, its bounds or its refusals.
 * Whatever the writers write is this.
 */
module ReferenceBytes {
  import opened Prelude
  import opened Ints
  import opened Wire
  import opened NodeIds
  import opened Variants
  import opened Messages
  import opened Layout

  // ---------------------------------------------------------------- numbers and texts

  function Two(v: u16): bytes { [v % 256, v / 256] }
  function Four(v: u32): bytes { [v % 256, v / 256 % 256, v / 65536 % 256, v / 16777216] }
  function Eight(v: u64): bytes { Four(v % 0x1_0000_0000) + Four(v / 0x1_0000_0000) }

  /** Two's complement. */
  function SignedTwo(v: i16): bytes { Two(if v < 0 then v + 0x1_0000 else v) }
  function SignedFour(v: i32): bytes { Four(if v < 0 then v + 0x1_0000_0000 else v) }
  function SignedEight(v: i64): bytes { Eight(if v < 0 then v + 0x1_0000_0000_0000_0000 else v) }

  const NULL: bytes := [0xFF, 0xFF, 0xFF, 0xFF]

  /** A count of elements or bytes; no message has room for more than an Int32 can say. */
  function Count(n: nat): bytes { Four(n % 0x1_0000_0000) }

  function Text(v: bytes): bytes { Count(|v|) + v }

  /** 100 ns ticks since 1601. */
  function Ticks(t: Instant): bytes { Eight(EncodeDateTime(t)) }

  function Bit(b: bool): (n: nat)
    ensures n <= 1
  {
    if b then 1 else 0
  }

  /** Four bits, least significant first. */
  function Nibble(a: bool, b: bool, c: bool, d: bool): (n: nat)
    ensures n < 16
  {
    Bit(a) + 2 * Bit(b) + 4 * Bit(c) + 8 * Bit(d)
  }

  function Bool(b: bool): bytes { if b then [1] else [0] }

  lemma FourIs(v: u32)
    ensures EncU32(v).data == Four(v)
  {
    FourBytes(v);
  }

  lemma TwoIs(v: u16)
    ensures EncU16(v).data == Two(v)
  {
    TwoBytes(v);
  }

  lemma EightIs(v: u64)
    ensures EncU64(v).data == Eight(v)
  {
    var (lo, hi) := (v % 0x1_0000_0000, v / 0x1_0000_0000);
    ReadsFour(lo, Four(hi));
    ReadsFour(hi, []);
    assert Four(hi) + [] == Four(hi);
    FromLittleEndianRoundTrip(Four(lo) + Four(hi));
  }

  lemma ReadsFour(v: u32, rest: bytes)
    ensures FromLittleEndian(Four(v) + rest) == v + 0x1_0000_0000 * FromLittleEndian(rest)
  {
    hide FromLittleEndian;
    FourDigits(v % 256, v / 256 % 256, v / 65536 % 256, v / 16777216, rest);
    assert v / 65536 == v / 256 / 256 && v / 16777216 == v / 65536 / 256;
  }

  lemma FourDigits(a: byte, b: byte, c: byte, d: byte, rest: bytes)
    ensures FromLittleEndian([a, b, c, d] + rest) == a + 256 * b + 65536 * c + 16777216 * d + 0x1_0000_0000 * FromLittleEndian(rest)
  {
    var s := [a, b, c, d] + rest;
    var (s1, s2, s3) := ([b, c, d] + rest, [c, d] + rest, [d] + rest);
    assert s[1..] == s1 && s1[1..] == s2 && s2[1..] == s3 && s3[1..] == rest;
    assert FromLittleEndian(s3) == d + 256 * FromLittleEndian(rest);
    assert FromLittleEndian(s2) == c + 256 * FromLittleEndian(s3);
    assert FromLittleEndian(s1) == b + 256 * FromLittleEndian(s2);
  }

  lemma TextIs(l: Limits, v: bytes)
    requires l.Valid() && EncString(l, v).Written?
    ensures EncString(l, v).data == Text(v)
  {
    FourIs(|v|);
  }

  lemma BlobIs(l: Limits, v: bytes)
    requires l.Valid() && EncByteString(l, v).Written?
    ensures EncByteString(l, v).data == Text(v)
  {
    FourIs(|v|);
  }

  lemma NullIs()
    ensures EncI32(-1).data == NULL
  {
    FourIs(0xFFFF_FFFF);
  }

  // ---------------------------------------------------------------- identifiers, names and objects

  function GuidBytes(g: AGuid): bytes { Four(g.data1) + Two(g.data2) + Two(g.data3) + g.data4 }

  /** Two compact forms for small numbers, else the type of the identifier; the flags are those of an ExpandedNodeId. */
  function NodeBytes(n: NodeId, flags: nat): bytes
    requires IsFlags(flags)
  {
    match n
    case Numeric(ns, id) =>
      if flags == 0 && ns == 0 && id < 0x100 then [0, id]
      else if flags == 0 && ns < 0x100 && id < 0x1_0000 then [1, ns] + Two(id)
      else [2 + flags] + Two(ns) + Four(id)
    case StringId(ns, text) => [3 + flags] + Two(ns) + Text(text)
    case GuidId(ns, guid) => [4 + flags] + Two(ns) + GuidBytes(guid)
    case Opaque(ns, blob) => [5 + flags] + Two(ns) + Text(blob)
    case Undefined(_) => []
  }

  lemma NodeIs(l: Limits, n: NodeId, flags: nat)
    requires l.Valid() && IsFlags(flags) && EncNodeIdFlags(l, n, flags).Written?
    ensures EncNodeIdFlags(l, n, flags).data == NodeBytes(n, flags)
  {
    hide EncU16, EncU32, EncString, EncByteString, Two, Four, Text;
    TwoIs(n.ns);
    match n
    case Numeric(ns, id) =>
      FourIs(id);
      if id < 0x1_0000 {
        TwoIs(id);
      }
    case StringId(_, text) =>
      if EncString(l, text).Written? {
        TextIs(l, text);
      }
    case GuidId(_, guid) =>
      FourIs(guid.data1);
      TwoIs(guid.data2);
      TwoIs(guid.data3);
    case Opaque(_, blob) =>
      if EncByteString(l, blob).Written? {
        BlobIs(l, blob);
      }
    case Undefined(_) =>
  }

  function ExpandedBytes(x: ExpandedNodeId): bytes {
    NodeBytes(if x.uri.Some? then WithNamespace(x.node, 0) else x.node, (if x.uri.Some? then 0x80 else 0) + (if x.serverIndex.Some? then 0x40 else 0))
    + (if x.uri.Some? then Text(x.uri.value) else []) + (if x.serverIndex.Some? then Four(x.serverIndex.value) else [])
  }

  lemma ExpandedIs(l: Limits, x: ExpandedNodeId)
    requires l.Valid() && EncExpandedNodeId(l, x).Written?
    ensures EncExpandedNodeId(l, x).data == ExpandedBytes(x)
  {
    hide EncNodeIdFlags, NodeBytes, EncU32, EncString, Four, Text;
    NodeIs(l, CanonExpanded(x).node, ExpandedFlags(x));
    if x.uri.Some? {
      TextIs(l, x.uri.value);
    }
    if x.serverIndex.Some? {
      FourIs(x.serverIndex.value);
    }
  }

  function NameBytes(q: QualifiedName): bytes { Two(q.ns) + Text(q.name) }

  lemma NameIs(l: Limits, q: QualifiedName)
    requires l.Valid() && EncQualifiedName(l, q).Written?
    ensures EncQualifiedName(l, q).data == NameBytes(q)
  {
    hide EncU16, EncString, Two, Text;
    TwoIs(q.ns);
    TextIs(l, q.name);
  }

  /** Bit 0 says there is a locale, bit 1 a text. */
  function LocalizedBytes(t: LocalizedText): bytes {
    [Nibble(t.locale != [], t.text != [], false, false)]
    + (if t.locale == [] then [] else Text(t.locale)) + (if t.text == [] then [] else Text(t.text))
  }

  lemma LocalizedIs(l: Limits, t: LocalizedText)
    requires l.Valid() && EncLocalizedText(l, t).Written?
    ensures EncLocalizedText(l, t).data == LocalizedBytes(t)
  {
    MaskOfTwo(t.locale != [], t.text != []);
    hide Mask, Nibble, EncString, Text;
    if t.locale != [] {
      TextIs(l, t.locale);
    }
    if t.text != [] {
      TextIs(l, t.text);
    }
  }

  lemma MaskOfTwo(a: bool, b: bool)
    ensures Mask([a, b]) == Nibble(a, b, false, false)
  {
    assert [a, b][1..] == [b] && [b][1..] == [];
  }

  /** 0 for no body; 1 for a ByteString and 2 for XML, both with their length. */
  function ObjectBytes(x: ExtensionObject): bytes {
    NodeBytes(x.typeId, 0) + (if x.encoding == 0 then [0] else [x.encoding] + Text(x.body))
  }

  lemma ObjectIs(l: Limits, x: ExtensionObject)
    requires l.Valid() && EncExtensionObject(l, x).Written?
    ensures EncExtensionObject(l, x).data == ObjectBytes(x)
  {
    hide EncNodeIdFlags, NodeBytes, EncByteString, Text;
    NodeIs(l, x.typeId, 0);
    if x.encoding != 0 {
      BlobIs(l, x.body);
    }
  }

  // ---------------------------------------------------------------- diagnostics

  function SomeFour(v: Option<i32>): bytes { if v.Some? then SignedFour(v.value) else [] }

  /** Bits in the order symbolic id, namespace, text, locale, info, status, inner. */
  function DiagnosticBits(d: DiagnosticInfo): byte {
    Nibble(d.symbolicId.Some?, d.namespaceUri.Some?, d.localizedText.Some?, d.locale.Some?)
    + 16 * Nibble(d.additionalInfo.Some?, d.innerStatus.Some?, d.inner.Some?, false)
  }

  function SomeText(v: Option<bytes>): bytes { if v.Some? then Text(v.value) else [] }

  function SomeWord(v: Option<u32>): bytes { if v.Some? then Four(v.value) else [] }

  /** The fields have the locale before the text. */
  function DiagnosticBytes(d: DiagnosticInfo): bytes {
    [DiagnosticBits(d)]
    + (SomeFour(d.symbolicId) + SomeFour(d.namespaceUri) + SomeFour(d.locale) + SomeFour(d.localizedText))
    + (SomeText(d.additionalInfo) + SomeWord(d.innerStatus))
    + (if d.inner.Some? then DiagnosticBytes(d.inner.value) else [])
  }

  lemma IndexIs(i: Option<i32>)
    ensures EncIndex(i).Written? && EncIndex(i).data == SomeFour(i)
  {
    if i.Some? {
      FourIs(U32Of(i.value));
    }
  }

  lemma DiagnosticMaskIs(d: DiagnosticInfo)
    ensures DiagnosticMask(d) == DiagnosticBits(d)
  {
    hide Mask, Nibble;
    var p := Presence(d);
    MaskOfFour(p[0], p[1], p[2], p[3], p[4..]);
    MaskOfThree(p[4], p[5], p[6]);
    Front(p);
    assert p[4..] == [p[4], p[5], p[6]];
  }

  lemma Front(p: seq<bool>)
    requires |p| >= 4
    ensures p == [p[0], p[1], p[2], p[3]] + p[4..]
  {
  }

  lemma MaskOfThree(a: bool, b: bool, c: bool)
    ensures Mask([a, b, c]) == Nibble(a, b, c, false)
  {
    hide Mask;
    MaskOfOne(a, [b, c]);
    MaskOfTwo(b, c);
    assert [a] + [b, c] == [a, b, c];
  }

  lemma MaskOfFour(a: bool, b: bool, c: bool, d: bool, rest: seq<bool>)
    requires |rest| <= 4
    ensures Mask([a, b, c, d] + rest) == Nibble(a, b, c, d) + 16 * Mask(rest)
  {
    hide Mask, Bit;
    MaskOfTwoMore(c, d, rest);
    MaskOfTwoMore(a, b, [c, d] + rest);
    assert [a, b] + ([c, d] + rest) == [a, b, c, d] + rest;
  }

  lemma MaskOfTwoMore(a: bool, b: bool, rest: seq<bool>)
    requires |rest| <= 6
    ensures Mask([a, b] + rest) == Bit(a) + 2 * Bit(b) + 4 * Mask(rest)
  {
    hide Mask, Bit;
    MaskOfOne(b, rest);
    MaskOfOne(a, [b] + rest);
    assert [a] + ([b] + rest) == [a, b] + rest;
  }

  lemma MaskOfOne(a: bool, rest: seq<bool>)
    requires |rest| <= 7
    ensures Mask([a] + rest) == Bit(a) + 2 * Mask(rest)
  {
    assert ([a] + rest)[1..] == rest;
  }

  lemma DetailsAre(l: Limits, d: DiagnosticInfo)
    requires l.Valid() && EncDetails(l, d).Written?
    ensures EncDetails(l, d).data == SomeText(d.additionalInfo) + SomeWord(d.innerStatus)
  {
    hide EncU32, EncString, Text, Four;
    if d.additionalInfo.Some? {
      TextIs(l, d.additionalInfo.value);
    }
    if d.innerStatus.Some? {
      FourIs(d.innerStatus.value);
    }
  }

  lemma IndexesAre(d: DiagnosticInfo)
    ensures EncIndexes(d).data == SomeFour(d.symbolicId) + SomeFour(d.namespaceUri) + SomeFour(d.locale) + SomeFour(d.localizedText)
  {
    hide EncIndex, SomeFour;
    IndexIs(d.symbolicId);
    IndexIs(d.namespaceUri);
    IndexIs(d.locale);
    IndexIs(d.localizedText);
  }

  lemma {:induction false} DiagnosticIs(l: Limits, d: DiagnosticInfo, depth: nat)
    requires l.Valid() && EncDiagnosticInfoAt(l, d, depth).Written?
    ensures EncDiagnosticInfoAt(l, d, depth).data == DiagnosticBytes(d)
    decreases d
  {
    hide DiagnosticMask, DiagnosticBits, EncIndexes, SomeFour, EncDetails, SomeText, SomeWord;
    DiagnosticMaskIs(d);
    IndexesAre(d);
    DetailsAre(l, d);
    if d.inner.Some? {
      DiagnosticIs(l, d.inner.value, depth + 1);
    }
  }

  // ---------------------------------------------------------------- Variant and DataValue

  /** One built-in value; a NaN is the quiet one. */
  function ValueBytes(v: Value): bytes {
    match v
    case VBool(b) => Bool(b)
    case VSByte(x) => [if x < 0 then x + 0x100 else x]
    case VByte(x) => [x]
    case VInt16(x) => SignedTwo(x)
    case VUInt16(x) => Two(x)
    case VInt32(x) => SignedFour(x)
    case VUInt32(x) => Four(x)
    case VInt64(x) => SignedEight(x)
    case VUInt64(x) => Eight(x)
    case VFloat(x) => if IsNaN32(x) then [0, 0, 0xC0, 0xFF] else Four(x)
    case VDouble(x) => if IsNaN64(x) then [0, 0, 0, 0, 0, 0, 0xF8, 0xFF] else Eight(x)
    case VString(x) => Text(x)
    case VDateTime(x) => Ticks(x)
    case VGuid(x) => GuidBytes(x)
    case VByteString(x) => Text(x)
    case VNodeId(x) => NodeBytes(x, 0)
    case VStatus(x) => Four(x)
    case VName(x) => NameBytes(x)
    case VText(x) => LocalizedBytes(x)
    case VObject(x) => ObjectBytes(x)
    case _ => []
  }

  lemma NumbersAre(l: Limits, v: Value)
    requires l.Valid() && 1 <= TypeOf(v) <= 11
    ensures EncValue(l, v).Written? && EncValue(l, v).data == ValueBytes(v)
  {
    hide EncU16, EncU32, EncU64, Two, Four, Eight, IsNaN32, IsNaN64;
    match v
    case VBool(x) =>
    case VSByte(x) =>
    case VByte(x) =>
    case VInt16(x) => TwoIs(U16Of(x));
    case VUInt16(x) => TwoIs(x);
    case VInt32(x) => FourIs(U32Of(x));
    case VUInt32(x) => FourIs(x);
    case VInt64(x) => EightIs(U64Of(x));
    case VUInt64(x) => EightIs(x);
    case VFloat(x) =>
      FourIs(Canon32(x));
      QuietNaNs();
    case VDouble(x) =>
      EightIs(Canon64(x));
      QuietNaNs();
  }

  lemma QuietNaNs()
    ensures Four(0xFFC0_0000) == [0, 0, 0xC0, 0xFF] && Eight(0xFFF8_0000_0000_0000) == [0, 0, 0, 0, 0, 0, 0xF8, 0xFF]
  {
  }

  lemma ValueIs(l: Limits, v: Value)
    requires l.Valid() && EncValue(l, v).Written?
    ensures EncValue(l, v).data == ValueBytes(v)
  {
    hide EncU16, EncU32, EncU64, EncBlob, EncNodeIdFlags, EncExtensionObject, EncLocalizedText, EncQualifiedName, NodeBytes, ObjectBytes,
      LocalizedBytes, NameBytes, Two, Four, Eight, Text, IsNaN32, IsNaN64, EncodeDateTime;
    if 1 <= TypeOf(v) <= 11 {
      NumbersAre(l, v);
    } else {
      match v
      case VString(x) => TextIs(l, x);
      case VDateTime(x) => EightIs(U64Of(EncodeDateTime(x)));
      case VGuid(x) =>
        FourIs(x.data1);
        TwoIs(x.data2);
        TwoIs(x.data3);
      case VByteString(x) => BlobIs(l, x);
      case VNodeId(x) => NodeIs(l, x, 0);
      case VStatus(x) => FourIs(x);
      case VName(x) => NameIs(l, x);
      case VText(x) => LocalizedIs(l, x);
      case VObject(x) => ObjectIs(l, x);
    }
  }

  function ElementBytes(vs: seq<Value>): bytes {
    if vs == [] then [] else ValueBytes(vs[0]) + ElementBytes(vs[1..])
  }

  function DimensionBytes(dims: seq<i32>): bytes {
    if dims == [] then [] else SignedFour(dims[0]) + DimensionBytes(dims[1..])
  }

  lemma {:induction false} ElementsAre(l: Limits, vs: seq<Value>)
    requires l.Valid() && EncElements(l, vs).Written?
    ensures EncElements(l, vs).data == ElementBytes(vs)
  {
    hide EncValue, ValueBytes;
    if vs != [] {
      ValueIs(l, vs[0]);
      ElementsAre(l, vs[1..]);
    }
  }

  lemma {:induction false} DimensionsAre(dims: seq<i32>)
    ensures EncDimensions(dims).data == DimensionBytes(dims)
  {
    if dims != [] {
      FourIs(U32Of(dims[0]));
      DimensionsAre(dims[1..]);
    }
  }

  /** The type in the low six bits, bit 7 for an array and bit 6 for its dimensions, which follow the elements. */
  function VariantBytes(v: Variant): bytes {
    if v.isArray && v.value.Slice? && v.typeId < 0x40 then
      [v.typeId + if |v.dimensions| > 1 then 0xC0 else 0x80] + Count(|v.value.elements|) + ElementBytes(v.value.elements)
      + (if |v.dimensions| > 1 then Count(|v.dimensions|) + DimensionBytes(v.dimensions) else [])
    else if v.typeId == 0 then [0]
    else [v.typeId] + ValueBytes(v.value)
  }

  lemma ShapeIs(v: Variant)
    requires |v.dimensions| < 0x8000_0000
    ensures EncShape(v).data == if |v.dimensions| > 1 then Count(|v.dimensions|) + DimensionBytes(v.dimensions) else []
  {
    hide DimensionBytes, EncU32, Four;
    FourIs(|v.dimensions|);
    DimensionsAre(v.dimensions);
  }

  lemma ArrayIs(l: Limits, v: Variant)
    requires l.Valid() && EncVariantArray(l, v).Written?
    ensures v.value.Slice? && v.typeId <= 12 && |v.dimensions| < 0x8000_0000
    ensures EncVariantArray(l, v).data
      == [v.typeId + if |v.dimensions| > 1 then 0xC0 else 0x80] + Count(|v.value.elements|) + ElementBytes(v.value.elements) + EncShape(v).data
  {
    hide EncElements, ElementBytes, EncU32, Four, EncShape, ValueBytes;
    FourIs(|v.value.elements|);
    ElementsAre(l, v.value.elements);
  }

  lemma VariantIs(l: Limits, v: Variant)
    requires l.Valid() && EncVariant(l, v).Written?
    ensures EncVariant(l, v).data == VariantBytes(v)
  {
    hide EncValue, ValueBytes, EncVariantArray, ElementBytes, DimensionBytes, EncShape, Four;
    if v.isArray {
      ArrayIs(l, v);
      ShapeIs(v);
    } else if v.typeId != 0 {
      ValueIs(l, v.value);
    }
  }

  /** Picoseconds say something only beside a time inside the range. */
  function StampBytes(t: Instant, picoseconds: u16): bytes {
    if t == ZERO_TIME then []
    else if picoseconds != 0 && LOWER_BOUND < t < UPPER_BOUND && EncodeDateTime(t) != 0 then Ticks(t) + Two(picoseconds)
    else Ticks(t)
  }

  function DataValueBits(value: bool, status: bool, source: nat, server: nat): byte {
    Nibble(value, status, source > 0, server > 0) + 16 * Nibble(source > 8, server > 8, false, false)
  }

  /** Bits in the order value, status, source time, server time, source and server picoseconds; each time is followed by its picoseconds. */
  function DataValueBytes(d: DataValue): bytes {
    var (source, server) := (StampBytes(d.sourceTime, d.sourcePicoseconds), StampBytes(d.serverTime, d.serverPicoseconds));
    [DataValueBits(d.value.typeId != 0, d.status != 0, |source|, |server|)]
    + (if d.value.typeId != 0 then VariantBytes(d.value) else []) + ((if d.status != 0 then Four(d.status) else []) + source + server)
  }

  lemma StampIs(t: Instant, picoseconds: u16)
    ensures EncDateTime(t).data == Ticks(t) && |Ticks(t)| == 8
    ensures StampBytes(t, picoseconds)
      == (if t != ZERO_TIME then EncDateTime(t).data else []) + (if HasPicoseconds(t, picoseconds) then EncU16(picoseconds).data else [])
    ensures (|StampBytes(t, picoseconds)| > 0 <==> t != ZERO_TIME) && (|StampBytes(t, picoseconds)| > 8 <==> HasPicoseconds(t, picoseconds))
  {
    hide EncU64, EncU16;
    EightIs(U64Of(EncodeDateTime(t)));
    TwoIs(picoseconds);
  }

  lemma DataValueMaskIs(d: DataValue)
    ensures Mask(DataValuePresence(d))
      == Nibble(d.value.typeId != 0, d.status != 0, d.sourceTime != ZERO_TIME, d.serverTime != ZERO_TIME)
         + 16 * Nibble(HasPicoseconds(d.sourceTime, d.sourcePicoseconds), HasPicoseconds(d.serverTime, d.serverPicoseconds), false, false)
  {
    hide Mask, Nibble, HasPicoseconds;
    var p := DataValuePresence(d);
    MaskOfFour(p[0], p[1], p[2], p[3], p[4..]);
    MaskOfTwo(p[4], p[5]);
    Front(p);
    assert p[4..] == [p[4], p[5]];
  }

  lemma StampsAre(d: DataValue)
    ensures EncStamps(d).data
      == (if d.status != 0 then Four(d.status) else []) + StampBytes(d.sourceTime, d.sourcePicoseconds) + StampBytes(d.serverTime, d.serverPicoseconds)
  {
    FourIs(d.status);
    StampIs(d.sourceTime, d.sourcePicoseconds);
    StampIs(d.serverTime, d.serverPicoseconds);
    hide EncU32, EncU16, EncDateTime, StampBytes, HasPicoseconds, Four;
  }

  lemma DataValueIs(l: Limits, d: DataValue)
    requires l.Valid() && EncDataValue(l, d).Written?
    ensures EncDataValue(l, d).data == DataValueBytes(d)
  {
    hide Mask, Nibble, HasPicoseconds, EncVariant, VariantBytes, EncStamps, StampBytes, Four;
    DataValueMaskIs(d);
    StampsAre(d);
    StampIs(d.sourceTime, d.sourcePicoseconds);
    StampIs(d.serverTime, d.serverPicoseconds);
    if d.value.typeId != 0 {
      VariantIs(l, d.value);
    }
  }

  // ---------------------------------------------------------------- lists and headers

  function Many<T>(one: T -> bytes, xs: seq<T>): bytes {
    if xs == [] then [] else one(xs[0]) + Many(one, xs[1..])
  }

  function List<T>(one: T -> bytes, xs: seq<T>): bytes { Count(|xs|) + Many(one, xs) }

  lemma {:induction false} ManyAre<T(!new)>(enc: T -> Enc, one: T -> bytes, xs: seq<T>)
    requires (forall x :: enc(x).Written? ==> enc(x).data == one(x)) && EncAll(enc, xs).Written?
    ensures EncAll(enc, xs).data == Many(one, xs)
  {
    if xs != [] {
      ManyAre(enc, one, xs[1..]);
    }
  }

  lemma ListIs<T(!new)>(l: Bounds, f: Format<T>, one: T -> bytes, xs: seq<T>)
    requires (forall x :: f.enc(x).Written? ==> f.enc(x).data == one(x)) && EncList(l, f, xs).Written?
    ensures EncList(l, f, xs).data == List(one, xs)
  {
    hide EncAll, Many, EncU32, Four;
    ManyAre(f.enc, one, xs);
    FourIs(|xs|);
  }

  function TextList(xs: seq<bytes>): bytes { List(Text, xs) }
  function NumberList(xs: seq<u32>): bytes { List(Four, xs) }
  function DiagnosticList(xs: seq<DiagnosticInfo>): bytes { List(DiagnosticBytes, xs) }

  lemma TextsAre(l: Bounds, xs: seq<bytes>)
    requires EncList(l, Texts(l), xs).Written?
    ensures EncList(l, Texts(l), xs).data == TextList(xs)
  {
    hide EncString, Text, List, EncList;
    forall x | Texts(l).enc(x).Written? ensures Texts(l).enc(x).data == Text(x) {
      TextIs(l, x);
    }
    ListIs(l, Texts(l), Text, xs);
  }

  lemma NumbersListIs(l: Bounds, xs: seq<u32>)
    requires EncList(l, Numbers(l), xs).Written?
    ensures EncList(l, Numbers(l), xs).data == NumberList(xs)
  {
    hide EncU32, Four, List, EncList;
    forall x | Numbers(l).enc(x).Written? ensures Numbers(l).enc(x).data == Four(x) {
      FourIs(x);
    }
    ListIs(l, Numbers(l), Four, xs);
  }

  lemma DiagnosticsAre(l: Bounds, xs: seq<DiagnosticInfo>)
    requires EncList(l, Diagnostics(l), xs).Written?
    ensures EncList(l, Diagnostics(l), xs).data == DiagnosticList(xs)
  {
    hide EncDiagnosticInfoAt, DiagnosticBytes, List, EncList;
    forall x | Diagnostics(l).enc(x).Written? ensures Diagnostics(l).enc(x).data == DiagnosticBytes(x) {
      DiagnosticIs(l, x, 0);
    }
    ListIs(l, Diagnostics(l), DiagnosticBytes, xs);
  }

  function OptionalText(v: bytes): bytes { if v == [] then NULL else Text(v) }

  lemma OptionalIs(l: Limits, v: bytes)
    requires l.Valid() && EncOptionalText(l, v).Written?
    ensures EncOptionalText(l, v).data == OptionalText(v)
  {
    hide EncString, EncI32, Text;
    NullIs();
    if v != [] {
      TextIs(l, v);
    }
  }

  function DoubleBytes(v: u64): bytes { if IsNaN64(v) then [0, 0, 0, 0, 0, 0, 0xF8, 0xFF] else Eight(v) }

  lemma DoubleIs(v: u64)
    ensures EncU64(Canon64(v)).data == DoubleBytes(v)
  {
    hide EncU64, IsNaN64;
    EightIs(Canon64(v));
    QuietNaNs();
  }

  lemma TicksAre(t: Instant)
    ensures EncDateTime(t).data == Ticks(t)
  {
    hide EncU64, Eight;
    EightIs(U64Of(EncodeDateTime(t)));
  }

  lemma SignedIs(v: i32)
    ensures EncI32(v).data == SignedFour(v)
  {
    hide EncU32, Four;
    FourIs(U32Of(v));
  }

  function RequestHeaderBytes(h: RequestHeader): bytes {
    NodeBytes(h.token, 0) + Ticks(h.timestamp) + Four(h.handle) + Four(h.diagnostics) + Text(h.auditEntry) + Four(h.timeoutHint) + ObjectBytes(h.additional)
  }

  lemma RequestHeaderIs(l: Bounds, h: RequestHeader)
    requires EncRequestHeader(l, h).Written?
    ensures EncRequestHeader(l, h).data == RequestHeaderBytes(h)
  {
    hide EncNodeIdFlags, NodeBytes, EncDateTime, Ticks, EncU32, Four, EncString, Text, EncExtensionObject, ObjectBytes;
    NodeIs(l, h.token, 0);
    TicksAre(h.timestamp);
    FourIs(h.handle);
    FourIs(h.diagnostics);
    TextIs(l, h.auditEntry);
    FourIs(h.timeoutHint);
    ObjectIs(l, h.additional);
  }

  function ResponseHeaderBytes(h: ResponseHeader): bytes {
    Ticks(h.timestamp) + Four(h.handle) + Four(h.result) + DiagnosticBytes(h.diagnostics)
    + (if h.strings.None? then NULL else TextList(h.strings.value)) + ObjectBytes(h.additional)
  }

  lemma ResponseHeaderIs(l: Bounds, h: ResponseHeader)
    requires EncResponseHeader(l, h).Written?
    ensures EncResponseHeader(l, h).data == ResponseHeaderBytes(h)
  {
    hide EncDateTime, Ticks, EncU32, Four, EncDiagnosticInfoAt, DiagnosticBytes, EncI32, EncList, TextList, EncExtensionObject, ObjectBytes;
    TicksAre(h.timestamp);
    FourIs(h.handle);
    FourIs(h.result);
    DiagnosticIs(l, h.diagnostics, 0);
    NullIs();
    if h.strings.Some? {
      TextsAre(l, h.strings.value);
    }
    ObjectIs(l, h.additional);
  }

  // ---------------------------------------------------------------- requests

  /** The first four bytes of a message: the identifier of its encoding. */
  lemma TypeIs(l: Limits, id: u32)
    requires l.Valid() && 0x100 <= id < 0x1_0000
    ensures EncNodeId(l, Numeric(0, id)).Written? && EncNodeId(l, Numeric(0, id)).data == [1, 0, id % 256, id / 256]
  {
    NumericLayout(l, 0, id);
  }

  function ViewBytes(w: ViewDescription): bytes { NodeBytes(w.view, 0) + Ticks(w.timestamp) + Four(w.version) }

  lemma ViewIs(l: Bounds, w: ViewDescription)
    requires EncViewDescription(l, w).Written?
    ensures EncViewDescription(l, w).data == ViewBytes(w)
  {
    hide EncNodeIdFlags, NodeBytes, EncDateTime, Ticks, EncU32, Four;
    NodeIs(l, w.view, 0);
    TicksAre(w.timestamp);
    FourIs(w.version);
  }

  function BrowseDescriptionBytes(b: BrowseDescription): bytes {
    NodeBytes(b.node, 0) + SignedFour(b.direction) + NodeBytes(b.referenceType, 0) + Bool(b.subtypes) + Four(b.classMask) + Four(b.resultMask)
  }

  function BrowseDescriptionList(xs: seq<BrowseDescription>): bytes { List(BrowseDescriptionBytes, xs) }

  lemma BrowseDescriptionIs(l: Bounds, b: BrowseDescription)
    requires EncBrowseDescription(l, b).Written?
    ensures EncBrowseDescription(l, b).data == BrowseDescriptionBytes(b)
  {
    hide EncNodeIdFlags, NodeBytes, EncI32, SignedFour, EncU32, Four;
    NodeIs(l, b.node, 0);
    SignedIs(b.direction);
    NodeIs(l, b.referenceType, 0);
    FourIs(b.classMask);
    FourIs(b.resultMask);
  }

  lemma BrowseDescriptionsAre(l: Bounds, xs: seq<BrowseDescription>)
    requires EncList(l, BrowseDescriptions(l), xs).Written?
    ensures EncList(l, BrowseDescriptions(l), xs).data == BrowseDescriptionList(xs)
  {
    hide EncBrowseDescription, BrowseDescriptionBytes, List, EncList;
    forall x | BrowseDescriptions(l).enc(x).Written? ensures BrowseDescriptions(l).enc(x).data == BrowseDescriptionBytes(x) {
      BrowseDescriptionIs(l, x);
    }
    ListIs(l, BrowseDescriptions(l), BrowseDescriptionBytes, xs);
  }

  function BrowseRequestBytes(r: BrowseRequest): bytes {
    [1, 0, 0x0F, 0x02] + RequestHeaderBytes(r.header) + ViewBytes(r.view) + Four(r.maxReferences) + BrowseDescriptionList(r.nodes)
  }

  lemma BrowseRequestIs(l: Bounds, r: BrowseRequest)
    requires EncBrowseRequest(l, r).Written?
    ensures EncBrowseRequest(l, r).data == BrowseRequestBytes(r)
  {
    hide EncNodeIdFlags, EncRequestHeader, RequestHeaderBytes, EncViewDescription, ViewBytes, EncU32, Four, EncList, BrowseDescriptions,
      BrowseDescriptionList;
    TypeIs(l, 527);
    RequestHeaderIs(l, r.header);
    ViewIs(l, r.view);
    FourIs(r.maxReferences);
    BrowseDescriptionsAre(l, r.nodes);
  }

  function ReadValueIdBytes(v: ReadValueId): bytes {
    NodeBytes(v.node, 0) + Four(v.attribute) + OptionalText(v.indexRange) + NameBytes(v.encoding)
  }

  function ReadValueIdList(xs: seq<ReadValueId>): bytes { List(ReadValueIdBytes, xs) }

  lemma ReadValueIdIs(l: Bounds, v: ReadValueId)
    requires EncReadValueId(l, v).Written?
    ensures EncReadValueId(l, v).data == ReadValueIdBytes(v)
  {
    hide EncNodeIdFlags, NodeBytes, EncU32, Four, EncOptionalText, OptionalText, EncQualifiedName, NameBytes;
    NodeIs(l, v.node, 0);
    FourIs(v.attribute);
    OptionalIs(l, v.indexRange);
    NameIs(l, v.encoding);
  }

  lemma ReadValueIdsAre(l: Bounds, xs: seq<ReadValueId>)
    requires EncList(l, ReadValueIds(l), xs).Written?
    ensures EncList(l, ReadValueIds(l), xs).data == ReadValueIdList(xs)
  {
    hide EncReadValueId, ReadValueIdBytes, List, EncList;
    forall x | ReadValueIds(l).enc(x).Written? ensures ReadValueIds(l).enc(x).data == ReadValueIdBytes(x) {
      ReadValueIdIs(l, x);
    }
    ListIs(l, ReadValueIds(l), ReadValueIdBytes, xs);
  }

  function ReadRequestBytes(r: ReadRequest): bytes {
    [1, 0, 0x77, 0x02] + RequestHeaderBytes(r.header) + DoubleBytes(r.maxAge) + SignedFour(r.timestamps) + ReadValueIdList(r.nodes)
  }

  lemma ReadRequestIs(l: Bounds, r: ReadRequest)
    requires EncReadRequest(l, r).Written?
    ensures EncReadRequest(l, r).data == ReadRequestBytes(r)
  {
    hide EncNodeIdFlags, EncRequestHeader, RequestHeaderBytes, EncU64, Canon64, DoubleBytes, EncI32, SignedFour, EncList, ReadValueIds, ReadValueIdList;
    TypeIs(l, 631);
    RequestHeaderIs(l, r.header);
    DoubleIs(r.maxAge);
    SignedIs(r.timestamps);
    ReadValueIdsAre(l, r.nodes);
  }

  function WriteValueBytes(v: WriteValue): bytes {
    NodeBytes(v.node, 0) + Four(v.attribute) + OptionalText(v.indexRange) + DataValueBytes(v.value)
  }

  function WriteValueList(xs: seq<WriteValue>): bytes { List(WriteValueBytes, xs) }

  lemma WriteValueIs(l: Bounds, v: WriteValue)
    requires EncWriteValue(l, v).Written?
    ensures EncWriteValue(l, v).data == WriteValueBytes(v)
  {
    hide EncNodeIdFlags, NodeBytes, EncU32, Four, EncOptionalText, OptionalText, EncDataValue, DataValueBytes;
    NodeIs(l, v.node, 0);
    FourIs(v.attribute);
    OptionalIs(l, v.indexRange);
    DataValueIs(l, v.value);
  }

  lemma WriteValuesAre(l: Bounds, xs: seq<WriteValue>)
    requires EncList(l, WriteValues(l), xs).Written?
    ensures EncList(l, WriteValues(l), xs).data == WriteValueList(xs)
  {
    hide EncWriteValue, WriteValueBytes, List, EncList;
    forall x | WriteValues(l).enc(x).Written? ensures WriteValues(l).enc(x).data == WriteValueBytes(x) {
      WriteValueIs(l, x);
    }
    ListIs(l, WriteValues(l), WriteValueBytes, xs);
  }

  function WriteRequestBytes(r: WriteRequest): bytes {
    [1, 0, 0xA1, 0x02] + RequestHeaderBytes(r.header) + WriteValueList(r.nodes)
  }

  lemma WriteRequestIs(l: Bounds, r: WriteRequest)
    requires EncWriteRequest(l, r).Written?
    ensures EncWriteRequest(l, r).data == WriteRequestBytes(r)
  {
    hide EncNodeIdFlags, EncRequestHeader, RequestHeaderBytes, EncList, WriteValues, WriteValueList;
    TypeIs(l, 673);
    RequestHeaderIs(l, r.header);
    WriteValuesAre(l, r.nodes);
  }

  function ItemRequestBytes(i: ItemRequest): bytes {
    var m := i.parameters;
    ReadValueIdBytes(i.item) + SignedFour(i.mode)
    + (Four(m.clientHandle) + DoubleBytes(m.samplingInterval) + ObjectBytes(m.filter) + Four(m.queueSize) + Bool(m.discardOldest))
  }

  function ItemRequestList(xs: seq<ItemRequest>): bytes { List(ItemRequestBytes, xs) }

  lemma ItemRequestIs(l: Bounds, i: ItemRequest)
    requires EncItemRequest(l, i).Written?
    ensures EncItemRequest(l, i).data == ItemRequestBytes(i)
  {
    hide EncReadValueId, ReadValueIdBytes, EncI32, SignedFour, EncU32, Four, EncU64, Canon64, DoubleBytes, EncExtensionObject, ObjectBytes;
    ReadValueIdIs(l, i.item);
    SignedIs(i.mode);
    FourIs(i.parameters.clientHandle);
    DoubleIs(i.parameters.samplingInterval);
    ObjectIs(l, i.parameters.filter);
    FourIs(i.parameters.queueSize);
  }

  lemma ItemRequestsAre(l: Bounds, xs: seq<ItemRequest>)
    requires EncList(l, ItemRequests(l), xs).Written?
    ensures EncList(l, ItemRequests(l), xs).data == ItemRequestList(xs)
  {
    hide EncItemRequest, ItemRequestBytes, List, EncList;
    forall x | ItemRequests(l).enc(x).Written? ensures ItemRequests(l).enc(x).data == ItemRequestBytes(x) {
      ItemRequestIs(l, x);
    }
    ListIs(l, ItemRequests(l), ItemRequestBytes, xs);
  }

  function CreateMonitoredItemsRequestBytes(r: CreateMonitoredItemsRequest): bytes {
    [1, 0, 0xEF, 0x02] + RequestHeaderBytes(r.header) + Four(r.subscription) + SignedFour(r.timestamps) + ItemRequestList(r.items)
  }

  lemma CreateMonitoredItemsRequestIs(l: Bounds, r: CreateMonitoredItemsRequest)
    requires EncCreateMonitoredItemsRequest(l, r).Written?
    ensures EncCreateMonitoredItemsRequest(l, r).data == CreateMonitoredItemsRequestBytes(r)
  {
    hide EncNodeIdFlags, EncRequestHeader, RequestHeaderBytes, EncU32, Four, EncI32, SignedFour, EncList, ItemRequests, ItemRequestList;
    TypeIs(l, 751);
    RequestHeaderIs(l, r.header);
    FourIs(r.subscription);
    SignedIs(r.timestamps);
    ItemRequestsAre(l, r.items);
  }

  function AcknowledgementBytes(a: Acknowledgement): bytes { Four(a.subscription) + Four(a.sequence) }

  function AcknowledgementList(xs: seq<Acknowledgement>): bytes { List(AcknowledgementBytes, xs) }

  lemma AcknowledgementsAre(l: Bounds, xs: seq<Acknowledgement>)
    requires EncList(l, Acknowledgements(l), xs).Written?
    ensures EncList(l, Acknowledgements(l), xs).data == AcknowledgementList(xs)
  {
    hide EncU32, Four, List, EncList;
    forall x | Acknowledgements(l).enc(x).Written? ensures Acknowledgements(l).enc(x).data == AcknowledgementBytes(x) {
      FourIs(x.subscription);
      FourIs(x.sequence);
    }
    ListIs(l, Acknowledgements(l), AcknowledgementBytes, xs);
  }

  function PublishRequestBytes(r: PublishRequest): bytes {
    [1, 0, 0x3A, 0x03] + RequestHeaderBytes(r.header) + AcknowledgementList(r.acknowledgements)
  }

  lemma PublishRequestIs(l: Bounds, r: PublishRequest)
    requires EncPublishRequest(l, r).Written?
    ensures EncPublishRequest(l, r).data == PublishRequestBytes(r)
  {
    hide EncNodeIdFlags, EncRequestHeader, RequestHeaderBytes, EncList, Acknowledgements, AcknowledgementList;
    TypeIs(l, 826);
    RequestHeaderIs(l, r.header);
    AcknowledgementsAre(l, r.acknowledgements);
  }

  // ---------------------------------------------------------------- responses

  function ItemNotificationBytes(n: ItemNotification): bytes { Four(n.clientHandle) + DataValueBytes(n.value) }

  function ItemNotificationList(xs: seq<ItemNotification>): bytes { List(ItemNotificationBytes, xs) }

  lemma ItemNotificationsAre(l: Bounds, xs: seq<ItemNotification>)
    requires EncList(l, ItemNotifications(l), xs).Written?
    ensures EncList(l, ItemNotifications(l), xs).data == ItemNotificationList(xs)
  {
    hide EncU32, Four, EncDataValue, DataValueBytes, List, EncList, Readable;
    forall x | ItemNotifications(l).enc(x).Written? ensures ItemNotifications(l).enc(x).data == ItemNotificationBytes(x) {
      FourIs(x.clientHandle);
      DataValueIs(l, x.value);
    }
    ListIs(l, ItemNotifications(l), ItemNotificationBytes, xs);
  }

  /** The items and no diagnostics, as the ByteString of an ExtensionObject of their own type. */
  function ChangesBytes(xs: seq<ItemNotification>): bytes {
    [1, 0, 0x2B, 0x03] + [1] + Text(ItemNotificationList(xs) + Count(0))
  }

  function NotificationMessageBytes(m: NotificationMessage): bytes {
    Four(m.sequence) + Ticks(m.publishTime) + (if m.hasData then Count(1) + ChangesBytes(m.notifications) else Count(0))
  }

  lemma ChangesAre(l: Bounds, xs: seq<ItemNotification>)
    requires EncNotificationData(l, EncChanges(l, xs)).Written?
    ensures EncNotificationData(l, EncChanges(l, xs)).data == ChangesBytes(xs)
  {
    hide EncNodeIdFlags, NodeBytes, EncList, ItemNotifications, ItemNotificationList, EncU32, Four, EncByteString, Text;
    ItemNotificationsAre(l, xs);
    FourIs(0);
    TypeIs(l, 811);
    BlobIs(l, EncChanges(l, xs).data);
  }

  lemma NotificationMessageIs(l: Bounds, m: NotificationMessage)
    requires EncNotificationMessage(l, m).Written?
    ensures EncNotificationMessage(l, m).data == NotificationMessageBytes(m)
  {
    hide EncU32, Four, EncDateTime, Ticks, EncNotificationData, EncChanges, ChangesBytes;
    FourIs(m.sequence);
    TicksAre(m.publishTime);
    FourIs(0);
    FourIs(1);
    if m.hasData {
      ChangesAre(l, m.notifications);
    }
  }

  function PublishResponseBytes(r: PublishResponse): bytes {
    [1, 0, 0x3D, 0x03] + ResponseHeaderBytes(r.header) + Four(r.subscription) + NumberList(r.available) + Bool(r.more)
    + NotificationMessageBytes(r.message) + NumberList(r.results) + DiagnosticList(r.diagnostics)
  }

  lemma PublishResponseIs(l: Bounds, r: PublishResponse)
    requires EncPublishResponse(l, r).Written?
    ensures EncPublishResponse(l, r).data == PublishResponseBytes(r)
  {
    hide EncNodeIdFlags, EncResponseHeader, ResponseHeaderBytes, EncU32, Four, EncList, Numbers, NumberList, EncNotificationMessage,
      NotificationMessageBytes, Diagnostics, DiagnosticList;
    TypeIs(l, 829);
    ResponseHeaderIs(l, r.header);
    FourIs(r.subscription);
    NumbersListIs(l, r.available);
    NotificationMessageIs(l, r.message);
    NumbersListIs(l, r.results);
    DiagnosticsAre(l, r.diagnostics);
  }

  function RepublishResponseBytes(r: RepublishResponse): bytes {
    [1, 0, 0x43, 0x03] + ResponseHeaderBytes(r.header) + NotificationMessageBytes(r.message)
  }

  lemma RepublishResponseIs(l: Bounds, r: RepublishResponse)
    requires EncRepublishResponse(l, r).Written?
    ensures EncRepublishResponse(l, r).data == RepublishResponseBytes(r)
  {
    hide EncNodeIdFlags, EncResponseHeader, ResponseHeaderBytes, EncNotificationMessage, NotificationMessageBytes;
    TypeIs(l, 835);
    ResponseHeaderIs(l, r.header);
    NotificationMessageIs(l, r.message);
  }
}
