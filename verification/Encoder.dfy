/**
 * The Encoder itself (binary.go, nodeid.go, variant.go): a bounded buffer with a
 * sticky error, and a method for each value that writes what Wire, NodeIds and
 * Variants say it is written as.
 */
module BinaryEncoder {
  import opened Prelude
  import opened Ints
  import opened Wire
  import opened NodeIds
  import opened Variants

  /** What reaches the buffer of a value, accepted or refused. */
  function Reaching(e: Enc): bytes { if e.Written? then e.data else e.before }

  /**
   * From buffer b0 and error e0, writing `e` led to buffer b1 and error e1: the
   * first failure stands, going over the message bound is one, and only a write
   * without failure has a buffer to speak of.
   */
  ghost predicate Wrote(bound: nat, b0: bytes, e0: Option<Error>, b1: bytes, e1: Option<Error>, e: Enc) {
    if e0.Some? then e1 == e0
    else if |b0| + |Reaching(e)| > bound then e1 == Some(LimitsExceeded)
    else if e.Refused? then e1 == Some(e.error)
    else e1 == None && b1 == b0 + e.data
  }

  /** Two writes in a row are the write of both, whichever of them failed. */
  lemma WroteThen(bound: nat, b0: bytes, e0: Option<Error>, b1: bytes, e1: Option<Error>, b2: bytes, e2: Option<Error>, x: Enc, y: Enc)
    requires Wrote(bound, b0, e0, b1, e1, x) && Wrote(bound, b1, e1, b2, e2, y)
    ensures Wrote(bound, b0, e0, b2, e2, x.Then(y))
  {
  }

  lemma WroteNothing(bound: nat, b0: bytes, e0: Option<Error>)
    requires |b0| <= bound
    ensures Wrote(bound, b0, e0, b0, e0, Written([]))
  {
  }

  lemma ThenAssociates(x: Enc, y: Enc, z: Enc)
    ensures x.Then(y).Then(z) == x.Then(y.Then(z))
  {
  }

  class Encoder {
    const limits: Limits
    var buffer: bytes
    var err: Option<Error>

    ghost predicate Valid()
      reads this
    {
      limits.Valid() && |buffer| <= limits.maxMessageBytes
    }

    constructor (limits: Limits)
      requires limits.Valid()
      ensures Valid() && buffer == [] && err == None && this.limits == limits
    {
      this.limits, buffer, err := limits, [], None;
    }

    /** The message, or the first failure. */
    method Bytes() returns (r: Got<bytes>)
      ensures r == if err.Some? then Fault(err.value) else Value(buffer)
    {
      if err.Some? {
        return Fault(err.value);
      }
      return Value(buffer);
    }

    method Fail(e: Error)
      modifies this`err
      ensures err == if old(err).Some? then old(err) else Some(e)
    {
      if err.None? {
        err := Some(e);
      }
    }

    method Write(data: bytes)
      requires Valid()
      modifies this
      ensures Valid() && Wrote(limits.maxMessageBytes, old(buffer), old(err), buffer, err, Written(data))
    {
      if err.Some? {
        return;
      }
      if |buffer| + |data| > limits.maxMessageBytes {
        Fail(LimitsExceeded);
        return;
      }
      buffer := buffer + data;
    }

    /** A value the encoder will not write. */
    method Refuse(e: Error)
      requires Valid()
      modifies this`err
      ensures Valid() && Wrote(limits.maxMessageBytes, old(buffer), old(err), buffer, err, Refused(e, []))
    {
      Fail(e);
    }

    method WriteByte(v: byte)
      requires Valid()
      modifies this
      ensures Valid() && Wrote(limits.maxMessageBytes, old(buffer), old(err), buffer, err, EncByte(v))
    {
      Write([v]);
    }

    method WriteBoolean(v: bool)
      requires Valid()
      modifies this
      ensures Valid() && Wrote(limits.maxMessageBytes, old(buffer), old(err), buffer, err, EncBool(v))
    {
      WriteByte(if v then 1 else 0);
    }

    method WriteUInt16(v: u16)
      requires Valid()
      modifies this
      ensures Valid() && Wrote(limits.maxMessageBytes, old(buffer), old(err), buffer, err, EncU16(v))
    {
      Write(LittleEndian(v, 2));
    }

    method WriteUInt32(v: u32)
      requires Valid()
      modifies this
      ensures Valid() && Wrote(limits.maxMessageBytes, old(buffer), old(err), buffer, err, EncU32(v))
    {
      Write(LittleEndian(v, 4));
    }

    method WriteUInt64(v: u64)
      requires Valid()
      modifies this
      ensures Valid() && Wrote(limits.maxMessageBytes, old(buffer), old(err), buffer, err, EncU64(v))
    {
      Write(LittleEndian(v, 8));
    }

    method WriteInt32(v: i32)
      requires Valid()
      modifies this
      ensures Valid() && Wrote(limits.maxMessageBytes, old(buffer), old(err), buffer, err, EncI32(v))
    {
      WriteUInt32(U32Of(v));
    }

    /** Any NaN is written as the one quiet NaN. */
    method WriteFloat(bits: u32)
      requires Valid()
      modifies this
      ensures Valid() && Wrote(limits.maxMessageBytes, old(buffer), old(err), buffer, err, EncU32(Canon32(bits)))
    {
      if IsNaN32(bits) {
        WriteUInt32(0xFFC0_0000);
      } else {
        WriteUInt32(bits);
      }
    }

    method WriteDouble(bits: u64)
      requires Valid()
      modifies this
      ensures Valid() && Wrote(limits.maxMessageBytes, old(buffer), old(err), buffer, err, EncU64(Canon64(bits)))
    {
      if IsNaN64(bits) {
        WriteUInt64(0xFFF8_0000_0000_0000);
      } else {
        WriteUInt64(bits);
      }
    }

    method WriteString(v: bytes)
      requires Valid()
      modifies this
      ensures Valid() && Wrote(limits.maxMessageBytes, old(buffer), old(err), buffer, err, EncString(limits, v))
    {
      if |v| > limits.maxStringBytes {
        Fail(LimitsExceeded);
        return;
      }
      ghost var (b0, e0) := (buffer, err);
      WriteInt32(|v|);
      ghost var (b1, e1) := (buffer, err);
      Write(v);
      WroteThen(limits.maxMessageBytes, b0, e0, b1, e1, buffer, err, EncI32(|v|), Written(v));
    }

    method WriteByteString(v: bytes)
      requires Valid()
      modifies this
      ensures Valid() && Wrote(limits.maxMessageBytes, old(buffer), old(err), buffer, err, EncByteString(limits, v))
    {
      if |v| > limits.maxByteStringBytes {
        Fail(LimitsExceeded);
        return;
      }
      ghost var (b0, e0) := (buffer, err);
      WriteInt32(|v|);
      ghost var (b1, e1) := (buffer, err);
      Write(v);
      WroteThen(limits.maxMessageBytes, b0, e0, b1, e1, buffer, err, EncI32(|v|), Written(v));
    }

    method WriteDateTime(t: Instant)
      requires Valid()
      modifies this
      ensures Valid() && Wrote(limits.maxMessageBytes, old(buffer), old(err), buffer, err, EncDateTime(t))
    {
      WriteUInt64(U64Of(EncodeDateTime(t)));
    }

    method WriteGuid(g: AGuid)
      requires Valid()
      modifies this
      ensures Valid() && Wrote(limits.maxMessageBytes, old(buffer), old(err), buffer, err, EncGuid(g))
    {
      hide Wrote, EncU32, EncU16;
      ghost var (b0, e0, bound) := (buffer, err, limits.maxMessageBytes);
      WriteUInt32(g.data1);
      ghost var (b1, e1) := (buffer, err);
      WriteUInt16(g.data2);
      WroteThen(bound, b0, e0, b1, e1, buffer, err, EncU32(g.data1), EncU16(g.data2));
      ghost var (b2, e2) := (buffer, err);
      WriteUInt16(g.data3);
      WroteThen(bound, b0, e0, b2, e2, buffer, err, EncU32(g.data1).Then(EncU16(g.data2)), EncU16(g.data3));
      ghost var (b3, e3) := (buffer, err);
      Write(g.data4);
      WroteThen(bound, b0, e0, b3, e3, buffer, err, EncU32(g.data1).Then(EncU16(g.data2)).Then(EncU16(g.data3)), Written(g.data4));
    }

    method WriteArrayLength(n: nat)
      requires Valid()
      modifies this
      ensures Valid() && Wrote(limits.maxMessageBytes, old(buffer), old(err), buffer, err, EncArrayLength(limits, n))
    {
      if n > limits.maxArrayLength {
        Fail(LimitsExceeded);
        return;
      }
      WriteInt32(n);
    }

    /** The namespace and identifier of a full form. */
    method WriteIdentifier(n: NodeId)
      requires Valid() && !n.Undefined?
      modifies this
      ensures Valid() && Wrote(limits.maxMessageBytes, old(buffer), old(err), buffer, err, EncIdentifier(limits, n))
    {
      hide Wrote, EncU16, EncU32, EncGuid, EncBlob;
      ghost var (b0, e0, bound) := (buffer, err, limits.maxMessageBytes);
      WriteUInt16(n.ns);
      ghost var (b1, e1) := (buffer, err);
      match n {
        case Numeric(_, id) =>
          WriteUInt32(id);
          WroteThen(bound, b0, e0, b1, e1, buffer, err, EncU16(n.ns), EncU32(id));
        case StringId(_, text) =>
          WriteString(text);
          WroteThen(bound, b0, e0, b1, e1, buffer, err, EncU16(n.ns), EncString(limits, text));
        case GuidId(_, guid) =>
          WriteGuid(guid);
          WroteThen(bound, b0, e0, b1, e1, buffer, err, EncU16(n.ns), EncGuid(guid));
        case Opaque(_, blob) =>
          WriteByteString(blob);
          WroteThen(bound, b0, e0, b1, e1, buffer, err, EncU16(n.ns), EncByteString(limits, blob));
      }
    }

    /** writeNodeIDWithFlags: the forms, most compact first. */
    method WriteNodeIdFlags(n: NodeId, flags: nat)
      requires Valid() && IsFlags(flags)
      modifies this
      ensures Valid() && Wrote(limits.maxMessageBytes, old(buffer), old(err), buffer, err, EncNodeIdFlags(limits, n, flags))
    {
      hide Wrote, EncIdentifier, EncU16;
      ghost var (b0, e0, bound) := (buffer, err, limits.maxMessageBytes);
      if TwoByte(n, flags) {
        WriteByte(0);
        ghost var (b1, e1) := (buffer, err);
        WriteByte(n.id);
        WroteThen(bound, b0, e0, b1, e1, buffer, err, EncByte(0), EncByte(n.id));
      } else if FourByte(n, flags) {
        WriteByte(1);
        ghost var (b1, e1) := (buffer, err);
        WriteByte(n.ns);
        WroteThen(bound, b0, e0, b1, e1, buffer, err, EncByte(1), EncByte(n.ns));
        ghost var (b2, e2) := (buffer, err);
        WriteUInt16(n.id);
        WroteThen(bound, b0, e0, b2, e2, buffer, err, EncByte(1).Then(EncByte(n.ns)), EncU16(n.id));
      } else if n.Undefined? {
        Refuse(EncodingError);
      } else {
        WriteByte(Form(n) + flags);
        ghost var (b1, e1) := (buffer, err);
        WriteIdentifier(n);
        WroteThen(bound, b0, e0, b1, e1, buffer, err, EncByte(Form(n) + flags), EncIdentifier(limits, n));
      }
    }

    method WriteNodeId(n: NodeId)
      requires Valid()
      modifies this
      ensures Valid() && Wrote(limits.maxMessageBytes, old(buffer), old(err), buffer, err, EncNodeId(limits, n))
    {
      WriteNodeIdFlags(n, 0);
    }

    method WriteQualifiedName(q: QualifiedName)
      requires Valid()
      modifies this
      ensures Valid() && Wrote(limits.maxMessageBytes, old(buffer), old(err), buffer, err, EncQualifiedName(limits, q))
    {
      hide Wrote, EncU16, EncBlob;
      ghost var (b0, e0, bound) := (buffer, err, limits.maxMessageBytes);
      WriteUInt16(q.ns);
      ghost var (b1, e1) := (buffer, err);
      WriteString(q.name);
      WroteThen(bound, b0, e0, b1, e1, buffer, err, EncU16(q.ns), EncString(limits, q.name));
    }

    /** A field is written only when it is not empty. */
    method WriteField(v: bytes)
      requires Valid()
      modifies this
      ensures Valid() && Wrote(limits.maxMessageBytes, old(buffer), old(err), buffer, err, EncField(limits, v))
    {
      if v == [] {
        WroteNothing(limits.maxMessageBytes, buffer, err);
      } else {
        WriteString(v);
      }
    }

    method WriteLocalizedText(t: LocalizedText)
      requires Valid()
      modifies this
      ensures Valid() && Wrote(limits.maxMessageBytes, old(buffer), old(err), buffer, err, EncLocalizedText(limits, t))
    {
      hide Wrote, Mask, EncField;
      ghost var (b0, e0, bound) := (buffer, err, limits.maxMessageBytes);
      WriteByte(Mask([t.locale != [], t.text != []]));
      ghost var (b1, e1) := (buffer, err);
      WriteField(t.locale);
      WroteThen(bound, b0, e0, b1, e1, buffer, err, EncByte(Mask([t.locale != [], t.text != []])), EncField(limits, t.locale));
      ghost var (b2, e2) := (buffer, err);
      WriteField(t.text);
      WroteThen(bound, b0, e0, b2, e2, buffer, err, EncByte(Mask([t.locale != [], t.text != []])).Then(EncField(limits, t.locale)), EncField(limits, t.text));
    }

    method WriteExtensionObject(x: ExtensionObject)
      requires Valid()
      modifies this
      ensures Valid() && Wrote(limits.maxMessageBytes, old(buffer), old(err), buffer, err, EncExtensionObject(limits, x))
    {
      hide Wrote, EncNodeId, EncBlob;
      ghost var (b0, e0, bound) := (buffer, err, limits.maxMessageBytes);
      WriteNodeId(x.typeId);
      ghost var (b1, e1) := (buffer, err);
      if x.encoding == 0 {
        WriteByte(0);
      } else if x.encoding == 1 || x.encoding == 2 {
        WriteByte(x.encoding);
        ghost var (b2, e2) := (buffer, err);
        WriteByteString(x.body);
        WroteThen(bound, b1, e1, b2, e2, buffer, err, EncByte(x.encoding), EncByteString(limits, x.body));
      } else {
        Refuse(EncodingError);
      }
      WroteThen(bound, b0, e0, b1, e1, buffer, err, EncNodeId(limits, x.typeId), EncBody(limits, x));
    }

    /** writeVariantScalar: one built-in value by its type. */
    method WriteValue(v: Variants.Value)
      requires Valid()
      modifies this
      ensures Valid() && Wrote(limits.maxMessageBytes, old(buffer), old(err), buffer, err, EncValue(limits, v))
    {
      hide Wrote, EncBool, EncByte, EncU16, EncU32, EncU64, EncI32, EncBlob, EncDateTime, EncGuid, EncNodeId, EncQualifiedName, EncLocalizedText,
        EncExtensionObject, Canon32, Canon64;
      match v {
        case VBool(x) => WriteBoolean(x);
        case VSByte(x) => WriteByte(U8Of(x));
        case VByte(x) => WriteByte(x);
        case VInt16(x) => WriteUInt16(U16Of(x));
        case VUInt16(x) => WriteUInt16(x);
        case VInt32(x) => WriteInt32(x);
        case VUInt32(x) => WriteUInt32(x);
        case VInt64(x) => WriteUInt64(U64Of(x));
        case VUInt64(x) => WriteUInt64(x);
        case VFloat(x) => WriteFloat(x);
        case VDouble(x) => WriteDouble(x);
        case VString(x) => WriteString(x);
        case VDateTime(x) => WriteDateTime(x);
        case VGuid(x) => WriteGuid(x);
        case VByteString(x) => WriteByteString(x);
        case VNodeId(x) => WriteNodeId(x);
        case VStatus(x) => WriteUInt32(x);
        case VName(x) => WriteQualifiedName(x);
        case VText(x) => WriteLocalizedText(x);
        case VObject(x) => WriteExtensionObject(x);
        case _ => Refuse(EncodingError);
      }
    }

    /** The element loop of an array Variant. */
    method WriteElements(vs: seq<Variants.Value>)
      requires Valid()
      modifies this
      ensures Valid() && Wrote(limits.maxMessageBytes, old(buffer), old(err), buffer, err, EncElements(limits, vs))
    {
      hide Wrote, EncValue, EncElements;
      WroteNothing(limits.maxMessageBytes, buffer, err);
      NoElements(limits);
      for k := 0 to |vs|
        invariant Valid() && Wrote(limits.maxMessageBytes, old(buffer), old(err), buffer, err, EncElements(limits, vs[..k]))
      {
        ghost var (b, e) := (buffer, err);
        WriteValue(vs[k]);
        WroteThen(limits.maxMessageBytes, old(buffer), old(err), b, e, buffer, err, EncElements(limits, vs[..k]), EncValue(limits, vs[k]));
        ElementsAppend(limits, vs[..k], vs[k]);
        assert vs[..k + 1] == vs[..k] + [vs[k]];
      }
      assert vs[..|vs|] == vs;
    }

    /** The dimension loop. */
    method WriteDimensions(dims: seq<i32>)
      requires Valid()
      modifies this
      ensures Valid() && Wrote(limits.maxMessageBytes, old(buffer), old(err), buffer, err, EncDimensions(dims))
    {
      hide Wrote, EncI32, EncDimensions;
      WroteNothing(limits.maxMessageBytes, buffer, err);
      NoDimensions();
      for k := 0 to |dims|
        invariant Valid() && Wrote(limits.maxMessageBytes, old(buffer), old(err), buffer, err, EncDimensions(dims[..k]))
      {
        ghost var (b, e) := (buffer, err);
        WriteInt32(dims[k]);
        WroteThen(limits.maxMessageBytes, old(buffer), old(err), b, e, buffer, err, EncDimensions(dims[..k]), EncI32(dims[k]));
        DimensionsAppend(dims[..k], dims[k]);
        assert dims[..k + 1] == dims[..k] + [dims[k]];
      }
      assert dims[..|dims|] == dims;
    }

    /** writeVariantArray. */
    method WriteVariantArray(v: Variant)
      requires Valid()
      modifies this
      ensures Valid() && Wrote(limits.maxMessageBytes, old(buffer), old(err), buffer, err, EncVariantArray(limits, v))
    {
      hide Wrote, EncElements, EncDimensions, EncI32, MatchesType;
      ghost var (b0, e0, bound) := (buffer, err, limits.maxMessageBytes);
      if !MatchesType(v) {
        Refuse(EncodingError);
        return;
      }
      IsSlice(v);
      if !Countable(v) {
        Refuse(LimitsExceeded);
        return;
      }
      ghost var (head, count) := (EncByte(ArrayMask(v)), EncI32(|v.value.elements|));
      WriteByte(ArrayMask(v));
      ghost var (b1, e1) := (buffer, err);
      WriteInt32(|v.value.elements|);
      WroteThen(bound, b0, e0, b1, e1, buffer, err, head, count);
      ghost var (b2, e2) := (buffer, err);
      WriteElements(v.value.elements);
      WroteThen(bound, b0, e0, b2, e2, buffer, err, head.Then(count), EncElements(limits, v.value.elements));
      ghost var (b3, e3) := (buffer, err);
      if Multidimensional(v) {
        WriteInt32(|v.dimensions|);
        ghost var (b4, e4) := (buffer, err);
        WriteDimensions(v.dimensions);
        WroteThen(bound, b3, e3, b4, e4, buffer, err, EncI32(|v.dimensions|), EncDimensions(v.dimensions));
      } else {
        WroteNothing(bound, b3, e3);
      }
      WroteThen(bound, b0, e0, b3, e3, buffer, err, head.Then(count).Then(EncElements(limits, v.value.elements)), EncShape(v));
    }

    /** WriteVariant. */
    method WriteVariant(v: Variant)
      requires Valid()
      modifies this
      ensures Valid() && Wrote(limits.maxMessageBytes, old(buffer), old(err), buffer, err, EncVariant(limits, v))
    {
      hide Wrote, EncVariantArray, EncValue, TypeOf;
      if v.isArray {
        WriteVariantArray(v);
      } else if v.typeId == 0 {
        WriteByte(0);
      } else if v.typeId > 25 {
        Refuse(EncodingError);
      } else {
        ghost var (b0, e0, bound) := (buffer, err, limits.maxMessageBytes);
        WriteByte(v.typeId);
        ghost var (b1, e1) := (buffer, err);
        if TypeOf(v.value) == v.typeId {
          WriteValue(v.value);
          WroteThen(bound, b0, e0, b1, e1, buffer, err, EncByte(v.typeId), EncValue(limits, v.value));
        } else {
          Refuse(EncodingError);
          WroteThen(bound, b0, e0, b1, e1, buffer, err, EncByte(v.typeId), Refused(EncodingError, []));
        }
      }
    }

    // A field of a DataValue is written only when it says something.

    method WriteStatus(status: u32)
      requires Valid()
      modifies this
      ensures Valid() && Wrote(limits.maxMessageBytes, old(buffer), old(err), buffer, err, When(status != 0, EncU32(status)))
    {
      if status != 0 {
        WriteUInt32(status);
      } else {
        WroteNothing(limits.maxMessageBytes, buffer, err);
      }
    }

    method WriteTime(t: Instant)
      requires Valid()
      modifies this
      ensures Valid() && Wrote(limits.maxMessageBytes, old(buffer), old(err), buffer, err, When(t != ZERO_TIME, EncDateTime(t)))
    {
      if t != ZERO_TIME {
        WriteDateTime(t);
      } else {
        WroteNothing(limits.maxMessageBytes, buffer, err);
      }
    }

    method WritePicoseconds(t: Instant, picoseconds: u16)
      requires Valid()
      modifies this
      ensures Valid() && Wrote(limits.maxMessageBytes, old(buffer), old(err), buffer, err, When(HasPicoseconds(t, picoseconds), EncU16(picoseconds)))
    {
      if HasPicoseconds(t, picoseconds) {
        WriteUInt16(picoseconds);
      } else {
        WroteNothing(limits.maxMessageBytes, buffer, err);
      }
    }

    /** The fields of a DataValue after its Variant. */
    method WriteStamps(d: DataValue)
      requires Valid()
      modifies this
      ensures Valid() && Wrote(limits.maxMessageBytes, old(buffer), old(err), buffer, err, EncStamps(d))
    {
      hide Wrote, When, HasPicoseconds, Enc.Then;
      ghost var (b0, e0, bound) := (buffer, err, limits.maxMessageBytes);
      WriteStatus(d.status);
      ghost var p0 := When(d.status != 0, EncU32(d.status));
      ghost var (b1, e1) := (buffer, err);
      WriteTime(d.sourceTime);
      WroteThen(bound, b0, e0, b1, e1, buffer, err, p0, When(d.sourceTime != ZERO_TIME, EncDateTime(d.sourceTime)));
      ghost var p1 := p0.Then(When(d.sourceTime != ZERO_TIME, EncDateTime(d.sourceTime)));
      ghost var (b2, e2) := (buffer, err);
      WritePicoseconds(d.sourceTime, d.sourcePicoseconds);
      WroteThen(bound, b0, e0, b2, e2, buffer, err, p1, When(HasPicoseconds(d.sourceTime, d.sourcePicoseconds), EncU16(d.sourcePicoseconds)));
      ghost var p2 := p1.Then(When(HasPicoseconds(d.sourceTime, d.sourcePicoseconds), EncU16(d.sourcePicoseconds)));
      ghost var (b3, e3) := (buffer, err);
      WriteTime(d.serverTime);
      WroteThen(bound, b0, e0, b3, e3, buffer, err, p2, When(d.serverTime != ZERO_TIME, EncDateTime(d.serverTime)));
      ghost var p3 := p2.Then(When(d.serverTime != ZERO_TIME, EncDateTime(d.serverTime)));
      ghost var (b4, e4) := (buffer, err);
      WritePicoseconds(d.serverTime, d.serverPicoseconds);
      WroteThen(bound, b0, e0, b4, e4, buffer, err, p3, When(HasPicoseconds(d.serverTime, d.serverPicoseconds), EncU16(d.serverPicoseconds)));
    }

    /** WriteDataValue. */
    method WriteDataValue(d: DataValue)
      requires Valid()
      modifies this
      ensures Valid() && Wrote(limits.maxMessageBytes, old(buffer), old(err), buffer, err, EncDataValue(limits, d))
    {
      hide Wrote, EncVariant, EncStamps, Mask, DataValuePresence;
      ghost var (b0, e0, bound) := (buffer, err, limits.maxMessageBytes);
      WriteByte(Mask(DataValuePresence(d)));
      ghost var (b1, e1) := (buffer, err);
      if d.value.typeId != 0 {
        WriteVariant(d.value);
      } else {
        WroteNothing(bound, buffer, err);
      }
      WroteThen(bound, b0, e0, b1, e1, buffer, err, EncByte(Mask(DataValuePresence(d))), When(d.value.typeId != 0, EncVariant(limits, d.value)));
      ghost var (b2, e2) := (buffer, err);
      WriteStamps(d);
      WroteThen(bound, b0, e0, b2, e2, buffer, err, EncByte(Mask(DataValuePresence(d))).Then(When(d.value.typeId != 0, EncVariant(limits, d.value))), EncStamps(d));
    }
  }

  lemma IsSlice(v: Variant)
    requires MatchesType(v)
    ensures v.value.Slice? && v.typeId <= 12
  {
  }

  lemma NoElements(l: Limits)
    requires l.Valid()
    ensures EncElements(l, []) == Written([])
  {
  }

  lemma NoDimensions()
    ensures EncDimensions([]) == Written([])
  {
  }

  lemma {:induction false} ElementsAppend(l: Limits, vs: seq<Value>, v: Value)
    requires l.Valid()
    ensures EncElements(l, vs + [v]) == EncElements(l, vs).Then(EncValue(l, v))
    decreases |vs|
  {
    hide EncValue;
    if vs == [] {
      assert (vs + [v])[1..] == [];
      assert EncElements(l, [v]) == EncValue(l, v).Then(Written([]));
    } else {
      assert (vs + [v])[1..] == vs[1..] + [v];
      ElementsAppend(l, vs[1..], v);
      ThenAssociates(EncValue(l, vs[0]), EncElements(l, vs[1..]), EncValue(l, v));
    }
  }

  lemma {:induction false} DimensionsAppend(dims: seq<i32>, d: i32)
    ensures EncDimensions(dims + [d]) == EncDimensions(dims).Then(EncI32(d))
    decreases |dims|
  {
    hide EncI32;
    if dims == [] {
      assert (dims + [d])[1..] == [];
    } else {
      assert (dims + [d])[1..] == dims[1..] + [d];
      DimensionsAppend(dims[1..], d);
      ThenAssociates(EncI32(dims[0]), EncDimensions(dims[1..]), EncI32(d));
    }
  }
}
