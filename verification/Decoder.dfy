/**
 * The Decoder itself (binary.go, nodeid.go, variant.go): an offset that never
 * leaves its buffer, the switch over the built-in types, and the loops of arrays
 * and dimensions. What each method reads is what Wire, NodeIds and Variants say.
 */
module BinaryDecoder {
  import opened Prelude
  import opened Ints
  import opened Wire
  import opened NodeIds
  import opened Variants

  /** What a read returned and where it left the offset, against the pure reader. A failed read never leaves the buffer. */
  ghost predicate Did<T>(p: Parsed<T>, r: Got<T>, offset: nat) {
    if p.Ok? then r == Value(p.value) && offset == p.next else r == Fault(p.error)
  }

  /** The dimension loop of the pure reader, one step. */
  lemma CheckOne(count: nat, product: nat, elements: nat, buf: bytes, off: nat)
    requires count > 0
    ensures var d := ReadI32(buf, off);
      CheckDimensions(count, product, elements, buf, off)
      == if d.Err? then Err(d.error)
         else if d.value <= 0 || Times(product, d.value) > elements then Err(DecodingError)
         else CheckDimensions(count - 1, Times(product, d.value), elements, buf, d.next)
  {
    hide ReadI32, Times;
  }

  lemma FitsInt64(product: nat, d: i32)
    requires product < 0x8000_0000 && d > 0
    ensures Times(product, d) < 0x8000_0000_0000_0000
  {
  }

  class Decoder {
    const limits: Limits
    const buffer: bytes
    var offset: nat

    ghost predicate Valid()
      reads this
    {
      limits.Valid() && offset <= |buffer|
    }

    constructor (limits: Limits, data: bytes)
      requires limits.Valid()
      ensures Valid() && offset == 0 && buffer == data && this.limits == limits
    {
      this.limits, buffer, offset := limits, data, 0;
    }

    /** take. */
    method Take(n: nat) returns (r: Got<bytes>)
      requires Valid()
      modifies this
      ensures Valid() && Did(ReadBytes(buffer, old(offset), n), r, offset)
    {
      if n > |buffer| - offset {
        return Fault(DecodingError);
      }
      r := Value(buffer[offset..offset + n]);
      offset := offset + n;
    }

    method TakeByte() returns (r: Got<byte>)
      requires Valid()
      modifies this
      ensures Valid() && Did(ReadByte(buffer, old(offset)), r, offset)
    {
      var s := Take(1);
      if s.Fault? {
        return Fault(s.error);
      }
      return Value(s.value[0]);
    }

    method TakeBoolean() returns (r: Got<bool>)
      requires Valid()
      modifies this
      ensures Valid() && Did(ReadBool(buffer, old(offset)), r, offset)
    {
      hide ReadByte;
      var b := TakeByte();
      if b.Fault? {
        return Fault(b.error);
      }
      return Value(b.value != 0);
    }

    method TakeUInt16() returns (r: Got<u16>)
      requires Valid()
      modifies this
      ensures Valid() && Did(ReadU16(buffer, old(offset)), r, offset)
    {
      Powers();
      var s := Take(2);
      if s.Fault? {
        return Fault(s.error);
      }
      return Value(FromLittleEndian(s.value));
    }

    method TakeUInt32() returns (r: Got<u32>)
      requires Valid()
      modifies this
      ensures Valid() && Did(ReadU32(buffer, old(offset)), r, offset)
    {
      Powers();
      var s := Take(4);
      if s.Fault? {
        return Fault(s.error);
      }
      return Value(FromLittleEndian(s.value));
    }

    method TakeUInt64() returns (r: Got<u64>)
      requires Valid()
      modifies this
      ensures Valid() && Did(ReadU64(buffer, old(offset)), r, offset)
    {
      Powers();
      var s := Take(8);
      if s.Fault? {
        return Fault(s.error);
      }
      return Value(FromLittleEndian(s.value));
    }

    method TakeInt32() returns (r: Got<i32>)
      requires Valid()
      modifies this
      ensures Valid() && Did(ReadI32(buffer, old(offset)), r, offset)
    {
      hide ReadU32;
      var v := TakeUInt32();
      if v.Fault? {
        return Fault(v.error);
      }
      return Value(I32Of(v.value));
    }

    method TakeDateTime() returns (r: Got<Instant>)
      requires Valid()
      modifies this
      ensures Valid() && Did(ReadDateTime(buffer, old(offset)), r, offset)
    {
      hide ReadU64;
      var v := TakeUInt64();
      if v.Fault? {
        return Fault(v.error);
      }
      return Value(DecodeDateTime(I64Of(v.value)));
    }

    method TakeGuid() returns (r: Got<AGuid>)
      requires Valid()
      modifies this
      ensures Valid() && Did(ReadGuid(buffer, old(offset)), r, offset)
    {
      hide ReadU32, ReadU16;
      var a := TakeUInt32();
      if a.Fault? {
        return Fault(a.error);
      }
      var b := TakeUInt16();
      if b.Fault? {
        return Fault(b.error);
      }
      var c := TakeUInt16();
      if c.Fault? {
        return Fault(c.error);
      }
      var d := Take(8);
      if d.Fault? {
        return Fault(d.error);
      }
      var g: AGuid := Guid(a.value, b.value, c.value, d.value);
      return Value(g);
    }

    /** readLength: -1 is null, and a length past its bound is told apart from a malformed one. */
    method ReadLengthField(bound: nat) returns (r: Got<Option<nat>>)
      requires Valid()
      modifies this
      ensures Valid() && Did(ReadLength(buffer, old(offset), bound), r, offset)
    {
      hide ReadI32;
      var raw := TakeInt32();
      if raw.Fault? {
        return Fault(raw.error);
      }
      if raw.value == -1 {
        return Value(None);
      }
      if raw.value < 0 {
        return Fault(DecodingError);
      }
      if raw.value > bound {
        return Fault(LimitsExceeded);
      }
      return Value(Some(raw.value));
    }

    method ReadArrayLengthField(floor: nat) returns (r: Got<Option<nat>>)
      requires Valid()
      modifies this
      ensures Valid() && Did(ReadArrayLength(limits, buffer, old(offset), floor), r, offset)
    {
      hide ReadLength;
      var n := ReadLengthField(limits.maxArrayLength);
      if n.Fault? {
        return Fault(n.error);
      }
      if n.value.Some? && n.value.value * floor > |buffer| - offset {
        return Fault(DecodingError);
      }
      return n;
    }

    method ReadStringField() returns (r: Got<Option<bytes>>)
      requires Valid()
      modifies this
      ensures Valid() && Did(ReadString(limits, buffer, old(offset)), r, offset)
    {
      hide ReadLength, ReadBytes;
      var n := ReadLengthField(limits.maxStringBytes);
      if n.Fault? {
        return Fault(n.error);
      }
      if n.value.None? {
        return Value(None);
      }
      var data := Take(n.value.value);
      if data.Fault? {
        return Fault(data.error);
      }
      return Value(Some(data.value));
    }

    method ReadByteStringField() returns (r: Got<Option<bytes>>)
      requires Valid()
      modifies this
      ensures Valid() && Did(ReadByteString(limits, buffer, old(offset)), r, offset)
    {
      hide ReadLength, ReadBytes;
      var n := ReadLengthField(limits.maxByteStringBytes);
      if n.Fault? {
        return Fault(n.error);
      }
      if n.value.None? {
        return Value(None);
      }
      var data := Take(n.value.value);
      if data.Fault? {
        return Fault(data.error);
      }
      return Value(Some(data.value));
    }

    /** A string, null taken for empty. */
    method TakeText() returns (r: Got<bytes>)
      requires Valid()
      modifies this
      ensures Valid() && Did(ReadText(limits, buffer, old(offset)), r, offset)
    {
      hide ReadBlob;
      var s := ReadStringField();
      if s.Fault? {
        return Fault(s.error);
      }
      return Value(if s.value.Some? then s.value.value else []);
    }

    method TakeIdentifier(form: nat) returns (r: Got<NodeId>)
      requires Valid()
      modifies this
      ensures Valid() && Did(ReadIdentifier(limits, form, buffer, old(offset)), r, offset)
    {
      hide ReadU16, ReadU32, ReadText, ReadGuid, ReadBlob;
      if form == 2 {
        var ns := TakeUInt16();
        if ns.Fault? {
          return Fault(ns.error);
        }
        var x := TakeUInt32();
        if x.Fault? {
          return Fault(x.error);
        }
        return Value(Numeric(ns.value, x.value));
      }
      if form == 3 {
        var ns := TakeUInt16();
        if ns.Fault? {
          return Fault(ns.error);
        }
        var x := TakeText();
        if x.Fault? {
          return Fault(x.error);
        }
        return Value(StringId(ns.value, x.value));
      }
      if form == 4 {
        var ns := TakeUInt16();
        if ns.Fault? {
          return Fault(ns.error);
        }
        var x := TakeGuid();
        if x.Fault? {
          return Fault(x.error);
        }
        return Value(GuidId(ns.value, x.value));
      }
      if form == 5 {
        var ns := TakeUInt16();
        if ns.Fault? {
          return Fault(ns.error);
        }
        var x := ReadByteStringField();
        if x.Fault? {
          return Fault(x.error);
        }
        return Value(Opaque(ns.value, if x.value.Some? then x.value.value else []));
      }
      return Fault(DecodingError);
    }

    method TakeCompact(form: nat) returns (r: Got<NodeId>)
      requires Valid() && form <= 1
      modifies this
      ensures Valid() && Did(ReadCompact(form, buffer, old(offset)), r, offset)
    {
      hide ReadByte, ReadU16;
      if form == 0 {
        var id := TakeByte();
        if id.Fault? {
          return Fault(id.error);
        }
        return Value(Numeric(0, id.value));
      }
      var ns := TakeByte();
      if ns.Fault? {
        return Fault(ns.error);
      }
      var id := TakeUInt16();
      if id.Fault? {
        return Fault(id.error);
      }
      return Value(Numeric(ns.value, id.value));
    }

    /** readNodeIDWithFlags: the low six bits select the form. */
    method TakeNodeIdFlags() returns (r: Got<(NodeId, nat)>)
      requires Valid()
      modifies this
      ensures Valid() && Did(ReadNodeIdFlags(limits, buffer, old(offset)), r, offset)
    {
      hide ReadByte, ReadCompact, ReadIdentifier;
      var encoding := TakeByte();
      if encoding.Fault? {
        return Fault(encoding.error);
      }
      var form := encoding.value % 0x40;
      FlagsOf(encoding.value);
      var n;
      if form <= 1 {
        n := TakeCompact(form);
      } else {
        n := TakeIdentifier(form);
      }
      if n.Fault? {
        return Fault(n.error);
      }
      return Value((n.value, encoding.value - form));
    }

    method TakeNodeId() returns (r: Got<NodeId>)
      requires Valid()
      modifies this
      ensures Valid() && Did(ReadNodeId(limits, buffer, old(offset)), r, offset)
    {
      hide ReadNodeIdFlags;
      var v := TakeNodeIdFlags();
      if v.Fault? {
        return Fault(v.error);
      }
      if v.value.1 != 0 {
        return Fault(DecodingError);
      }
      return Value(v.value.0);
    }

    method TakeExpandedNodeId() returns (r: Got<ExpandedNodeId>)
      requires Valid()
      modifies this
      ensures Valid() && Did(ReadExpandedNodeId(limits, buffer, old(offset)), r, offset)
    {
      hide ReadNodeIdFlags, ReadText, ReadU32;
      var v := TakeNodeIdFlags();
      if v.Fault? {
        return Fault(v.error);
      }
      var (uri, index) := (None, None);
      if v.value.1 >= 0x80 {
        var s := TakeText();
        if s.Fault? {
          return Fault(s.error);
        }
        uri := Some(s.value);
      }
      if v.value.1 == 0x40 || v.value.1 == 0xC0 {
        var s := TakeUInt32();
        if s.Fault? {
          return Fault(s.error);
        }
        index := Some(s.value);
      }
      return Value(ExpandedNodeId(v.value.0, uri, index));
    }

    method TakeQualifiedName() returns (r: Got<QualifiedName>)
      requires Valid()
      modifies this
      ensures Valid() && Did(ReadQualifiedName(limits, buffer, old(offset)), r, offset)
    {
      hide ReadU16, ReadText;
      var ns := TakeUInt16();
      if ns.Fault? {
        return Fault(ns.error);
      }
      var name := TakeText();
      if name.Fault? {
        return Fault(name.error);
      }
      return Value(QualifiedName(ns.value, name.value));
    }

    method TakeLocalizedText() returns (r: Got<LocalizedText>)
      requires Valid()
      modifies this
      ensures Valid() && Did(ReadLocalizedText(limits, buffer, old(offset)), r, offset)
    {
      hide ReadByte, ReadText, Has;
      var mask := TakeByte();
      if mask.Fault? {
        return Fault(mask.error);
      }
      var (locale, text) := ([], []);
      if Has(mask.value, 0) {
        var s := TakeText();
        if s.Fault? {
          return Fault(s.error);
        }
        locale := s.value;
      }
      if Has(mask.value, 1) {
        var s := TakeText();
        if s.Fault? {
          return Fault(s.error);
        }
        text := s.value;
      }
      return Value(LocalizedText(locale, text));
    }

    method TakeExtensionObject() returns (r: Got<ExtensionObject>)
      requires Valid()
      modifies this
      ensures Valid() && Did(ReadExtensionObject(limits, buffer, old(offset)), r, offset)
    {
      hide ReadNodeId, ReadByte, ReadBlob;
      var typeId := TakeNodeId();
      if typeId.Fault? {
        return Fault(typeId.error);
      }
      var encoding := TakeByte();
      if encoding.Fault? {
        return Fault(encoding.error);
      }
      if encoding.value == 0 {
        return Value(ExtensionObject(typeId.value, 0, []));
      }
      if encoding.value != 1 && encoding.value != 2 {
        return Fault(DecodingError);
      }
      var body := ReadByteStringField();
      if body.Fault? {
        return Fault(body.error);
      }
      return Value(ExtensionObject(typeId.value, encoding.value, if body.value.Some? then body.value.value else []));
    }

    method TakeIndex(present: bool) returns (r: Got<Option<i32>>)
      requires Valid()
      modifies this
      ensures Valid() && Did(ReadIndex(present, buffer, old(offset)), r, offset)
    {
      hide ReadI32;
      if !present {
        return Value(None);
      }
      var v := TakeInt32();
      if v.Fault? {
        return Fault(v.error);
      }
      return Value(Some(v.value));
    }

    method TakeIndexes(mask: byte) returns (r: Got<Indexes>)
      requires Valid()
      modifies this
      ensures Valid() && Did(ReadIndexes(mask, buffer, old(offset)), r, offset)
    {
      hide ReadIndex, Has;
      var symbolic := TakeIndex(Has(mask, 0));
      if symbolic.Fault? {
        return Fault(symbolic.error);
      }
      var uri := TakeIndex(Has(mask, 1));
      if uri.Fault? {
        return Fault(uri.error);
      }
      var locale := TakeIndex(Has(mask, 3));
      if locale.Fault? {
        return Fault(locale.error);
      }
      var text := TakeIndex(Has(mask, 2));
      if text.Fault? {
        return Fault(text.error);
      }
      return Value(Indexes(symbolic.value, uri.value, locale.value, text.value));
    }

    method TakeDetails(mask: byte) returns (r: Got<(Option<bytes>, Option<u32>)>)
      requires Valid()
      modifies this
      ensures Valid() && Did(ReadDetails(limits, mask, buffer, old(offset)), r, offset)
    {
      hide ReadText, ReadU32, Has;
      var (info, status) := (None, None);
      if Has(mask, 4) {
        var s := TakeText();
        if s.Fault? {
          return Fault(s.error);
        }
        info := Some(s.value);
      }
      if Has(mask, 5) {
        var s := TakeUInt32();
        if s.Fault? {
          return Fault(s.error);
        }
        status := Some(s.value);
      }
      return Value((info, status));
    }

    /** Everything of a DiagnosticInfo but the one inside it. */
    method TakeDiagnosticFields() returns (r: Got<(DiagnosticInfo, bool)>)
      requires Valid()
      modifies this
      ensures Valid() && Did(ReadDiagnosticFields(limits, buffer, old(offset)), r, offset)
    {
      hide ReadByte, ReadIndexes, ReadDetails, Has;
      var mask := TakeByte();
      if mask.Fault? {
        return Fault(mask.error);
      }
      var i := TakeIndexes(mask.value);
      if i.Fault? {
        return Fault(i.error);
      }
      var d := TakeDetails(mask.value);
      if d.Fault? {
        return Fault(d.error);
      }
      var fields := DiagnosticInfo(i.value.symbolicId, i.value.namespaceUri, i.value.locale, i.value.localizedText, d.value.0, d.value.1, None);
      return Value((fields, Has(mask.value, 6)));
    }

    method TakeDiagnosticInfo(depth: nat) returns (r: Got<DiagnosticInfo>)
      requires Valid()
      modifies this
      ensures Valid() && Did(ReadDiagnosticInfoAt(limits, buffer, old(offset), depth), r, offset)
      decreases MAX_DIAGNOSTIC_RECURSION + 1 - depth
    {
      hide ReadDiagnosticFields;
      if depth > MAX_DIAGNOSTIC_RECURSION {
        return Fault(LimitsExceeded);
      }
      var fields := TakeDiagnosticFields();
      if fields.Fault? {
        return Fault(fields.error);
      }
      if !fields.value.1 {
        return Value(fields.value.0);
      }
      var inner := TakeDiagnosticInfo(depth + 1);
      if inner.Fault? {
        return Fault(inner.error);
      }
      return Value(fields.value.0.(inner := Some(inner.value)));
    }

    /** readArrayDimensions: its product is an Int64, and never wraps. */
    method ReadDimensions(arrayLength: nat) returns (r: Got<()>)
      requires Valid() && arrayLength <= limits.maxArrayLength
      modifies this
      ensures Valid() && Did(ReadArrayDimensions(limits, arrayLength, buffer, old(offset)), r, offset)
    {
      hide ReadArrayLength, CheckDimensions, ReadI32, Times;
      var count := ReadArrayLengthField(4);
      if count.Fault? {
        return Fault(count.error);
      }
      if count.value.None? || count.value.value == 0 {
        return Fault(DecodingError);
      }
      var n := count.value.value;
      ghost var start := offset;
      var product: i64 := 1;
      for index := 0 to n
        invariant Valid() && 0 <= product < 0x8000_0000
        invariant CheckDimensions(n, 1, arrayLength, buffer, start) == CheckDimensions(n - index, product, arrayLength, buffer, offset)
      {
        CheckOne(n - index, product, arrayLength, buffer, offset);
        var d := TakeInt32();
        if d.Fault? {
          return Fault(d.error);
        }
        if d.value <= 0 {
          return Fault(DecodingError);
        }
        FitsInt64(product, d.value);
        product := Times(product, d.value);
        if product > arrayLength {
          return Fault(DecodingError);
        }
      }
      CheckNone(product, arrayLength, buffer, offset);
      if product != arrayLength {
        return Fault(DecodingError);
      }
      return Value(());
    }

    /** The element loop of ReadVariant. */
    method SkipElements(typeId: byte, n: nat) returns (r: Got<()>)
      requires Valid()
      modifies this
      ensures Valid() && Did(SkipMany(limits, typeId, n, buffer, old(offset)), r, offset)
      decreases |buffer| - offset, 3
    {
      hide SkipMany, SkipBuiltIn;
      for index := 0 to n
        invariant Valid() && old(offset) <= offset
        invariant SkipMany(limits, typeId, n, buffer, old(offset)) == SkipMany(limits, typeId, n - index, buffer, offset)
      {
        SkipNext(limits, typeId, n - index, buffer, offset);
        var x := ReadBuiltIn(typeId);
        if x.Fault? {
          return Fault(x.error);
        }
      }
      SkipNone(limits, typeId, buffer, offset);
      return Value(());
    }

    /** skipBuiltIn, Boolean to Double. */
    method TakeNumber(typeId: byte) returns (r: Got<Variants.Value>)
      requires Valid() && 1 <= typeId <= 11
      modifies this
      ensures Valid() && Did(ReadFlat(limits, typeId, buffer, old(offset)), r, offset)
    {
      hide ReadBool, ReadByte, ReadU16, ReadI32, ReadU32, ReadU64, ReadBlob, ReadDateTime, ReadGuid, ReadNodeId, ReadExpandedNodeId, ReadQualifiedName,
        ReadLocalizedText, ReadExtensionObject, ReadDiagnosticInfoAt;
      if typeId == 1 {
        var x := TakeBoolean();
        return if x.Fault? then Fault(x.error) else Value(VBool(x.value));
      }
      if typeId == 2 {
        var x := TakeByte();
        return if x.Fault? then Fault(x.error) else Value(VSByte(I8Of(x.value)));
      }
      if typeId == 3 {
        var x := TakeByte();
        return if x.Fault? then Fault(x.error) else Value(VByte(x.value));
      }
      if typeId == 4 {
        var x := TakeUInt16();
        return if x.Fault? then Fault(x.error) else Value(VInt16(I16Of(x.value)));
      }
      if typeId == 5 {
        var x := TakeUInt16();
        return if x.Fault? then Fault(x.error) else Value(VUInt16(x.value));
      }
      if typeId == 6 {
        var x := TakeInt32();
        return if x.Fault? then Fault(x.error) else Value(VInt32(x.value));
      }
      if typeId == 7 {
        var x := TakeUInt32();
        return if x.Fault? then Fault(x.error) else Value(VUInt32(x.value));
      }
      if typeId == 8 {
        var x := TakeUInt64();
        return if x.Fault? then Fault(x.error) else Value(VInt64(I64Of(x.value)));
      }
      if typeId == 9 {
        var x := TakeUInt64();
        return if x.Fault? then Fault(x.error) else Value(VUInt64(x.value));
      }
      if typeId == 10 {
        var x := TakeUInt32();
        return if x.Fault? then Fault(x.error) else Value(VFloat(x.value));
      }
      var x := TakeUInt64();
      return if x.Fault? then Fault(x.error) else Value(VDouble(x.value));
    }

    /** skipBuiltIn, the other types; an unassigned one carries a ByteString. */
    method TakeStructure(typeId: byte) returns (r: Got<Variants.Value>)
      requires Valid() && !(1 <= typeId <= 11)
      modifies this
      ensures Valid() && Did(ReadFlat(limits, typeId, buffer, old(offset)), r, offset)
    {
      hide ReadBool, ReadByte, ReadU16, ReadI32, ReadU32, ReadU64, ReadBlob, ReadDateTime, ReadGuid, ReadNodeId, ReadExpandedNodeId, ReadQualifiedName,
        ReadLocalizedText, ReadExtensionObject, ReadDiagnosticInfoAt;
      if typeId == 13 {
        var x := TakeDateTime();
        return if x.Fault? then Fault(x.error) else Value(VDateTime(x.value));
      }
      if typeId == 14 {
        var x := TakeGuid();
        return if x.Fault? then Fault(x.error) else Value(VGuid(x.value));
      }
      if typeId == 17 {
        var x := TakeNodeId();
        return if x.Fault? then Fault(x.error) else Value(VNodeId(x.value));
      }
      if typeId == 18 {
        var x := TakeExpandedNodeId();
        return if x.Fault? then Fault(x.error) else Value(VExpanded(x.value));
      }
      if typeId == 19 {
        var x := TakeUInt32();
        return if x.Fault? then Fault(x.error) else Value(VStatus(x.value));
      }
      if typeId == 20 {
        var x := TakeQualifiedName();
        return if x.Fault? then Fault(x.error) else Value(VName(x.value));
      }
      if typeId == 21 {
        var x := TakeLocalizedText();
        return if x.Fault? then Fault(x.error) else Value(VText(x.value));
      }
      if typeId == 22 {
        var x := TakeExtensionObject();
        return if x.Fault? then Fault(x.error) else Value(VObject(x.value));
      }
      if typeId == 24 {
        return Fault(DecodingError);
      }
      if typeId == 25 {
        var x := TakeDiagnosticInfo(0);
        return if x.Fault? then Fault(x.error) else Value(VDiagnostic(x.value));
      }
      if typeId == 12 || typeId == 16 {
        var s := ReadStringField();
        return if s.Fault? then Fault(s.error) else if s.value.Some? then Value(VString(s.value.value)) else Value(NoValue);
      }
      var s := ReadByteStringField();
      return if s.Fault? then Fault(s.error) else if s.value.Some? then Value(VByteString(s.value.value)) else Value(NoValue);
    }

    /** skipBuiltIn: only a DataValue leads back to a Variant. */
    method ReadBuiltIn(typeId: byte) returns (r: Got<Variants.Value>)
      requires Valid()
      modifies this
      ensures Valid() && Did(SkipBuiltIn(limits, typeId, buffer, old(offset)), r, offset)
      decreases |buffer| - offset, 2
    {
      hide ReadFlat, ReadDataValue;
      if typeId == 23 {
        var d := ReadDataValueField();
        if d.Fault? {
          return Fault(d.error);
        }
        return Value(VDataValue(d.value));
      }
      if 1 <= typeId <= 11 {
        r := TakeNumber(typeId);
      } else {
        r := TakeStructure(typeId);
      }
    }

    /** The fields of a DataValue after its Variant. */
    method TakeStamps(mask: byte, value: Variant) returns (r: Got<DataValue>)
      requires Valid()
      modifies this
      ensures Valid() && Did(ReadStamps(mask, value, buffer, old(offset)), r, offset)
    {
      hide ReadU32, ReadU16, ReadDateTime, Has;
      var (status, sourceTime, sourcePico, serverTime, serverPico) := (0, ZERO_TIME, 0, ZERO_TIME, 0);
      if Has(mask, 1) {
        var x := TakeUInt32();
        if x.Fault? {
          return Fault(x.error);
        }
        status := x.value;
      }
      if Has(mask, 2) {
        var x := TakeDateTime();
        if x.Fault? {
          return Fault(x.error);
        }
        sourceTime := x.value;
      }
      if Has(mask, 4) {
        var x := TakeUInt16();
        if x.Fault? {
          return Fault(x.error);
        }
        sourcePico := x.value;
      }
      if Has(mask, 3) {
        var x := TakeDateTime();
        if x.Fault? {
          return Fault(x.error);
        }
        serverTime := x.value;
      }
      if Has(mask, 5) {
        var x := TakeUInt16();
        if x.Fault? {
          return Fault(x.error);
        }
        serverPico := x.value;
      }
      return Value(DataValue(value, status, sourceTime, ClampPicoseconds(sourcePico), serverTime, ClampPicoseconds(serverPico)));
    }

    method ReadDataValueField() returns (r: Got<DataValue>)
      requires Valid()
      modifies this
      ensures Valid() && Did(ReadDataValue(limits, buffer, old(offset)), r, offset)
      decreases |buffer| - offset, 1
    {
      hide ReadVariant, ReadByte, ReadStamps, Has;
      var mask := TakeByte();
      if mask.Fault? {
        return Fault(mask.error);
      }
      var value := NULL_VARIANT;
      if Has(mask.value, 0) {
        var v := ReadVariantField();
        if v.Fault? {
          return Fault(v.error);
        }
        value := v.value;
      }
      r := TakeStamps(mask.value, value);
    }

    method ReadVariantField() returns (r: Got<Variant>)
      requires Valid()
      modifies this
      ensures Valid() && Did(ReadVariant(limits, buffer, old(offset)), r, offset)
      decreases |buffer| - offset, 0
    {
      hide SkipMany, SkipBuiltIn, ReadArrayLength, ReadArrayDimensions, ReadByte;
      var mask := TakeByte();
      if mask.Fault? {
        return Fault(mask.error);
      }
      var typeId := mask.value % 0x40;
      if typeId == 0 {
        return Value(NULL_VARIANT);
      }
      if typeId > 31 {
        return Fault(DecodingError);
      }
      if mask.value >= 0x80 {
        var length := ReadArrayLengthField(1);
        if length.Fault? {
          return Fault(length.error);
        }
        var n := if length.value.Some? then length.value.value else 0;
        var skipped := SkipElements(typeId, n);
        if skipped.Fault? {
          return Fault(skipped.error);
        }
        if mask.value >= 0xC0 {
          var shape := ReadDimensions(n);
          if shape.Fault? {
            return Fault(shape.error);
          }
        }
        return Value(Variant(typeId, NoValue, true, []));
      }
      if mask.value >= 0x40 {
        return Fault(DecodingError);
      }
      var v := ReadBuiltIn(typeId);
      if v.Fault? {
        return Fault(v.error);
      }
      return Value(Variant(typeId, v.value, false, []));
    }
  }

  lemma SkipNext(l: Limits, typeId: byte, n: nat, buf: bytes, off: nat)
    requires n > 0
    ensures var x := SkipBuiltIn(l, typeId, buf, off);
      SkipMany(l, typeId, n, buf, off) == if x.Err? then Err(x.error) else SkipMany(l, typeId, n - 1, buf, x.next)
  {
    hide SkipBuiltIn;
  }

  lemma SkipNone(l: Limits, typeId: byte, buf: bytes, off: nat)
    ensures SkipMany(l, typeId, 0, buf, off) == Ok((), off)
  {
  }

  lemma CheckNone(product: nat, elements: nat, buf: bytes, off: nat)
    ensures CheckDimensions(0, product, elements, buf, off) == if product == elements then Ok((), off) else Err(DecodingError)
  {
  }
}
