/** NodeId, ExpandedNodeId, QualifiedName, LocalizedText, ExtensionObject, DiagnosticInfo and the two headers (nodeid.go). */
module NodeIds {
  import opened Prelude
  import opened Ints
  import opened Wire

  // ---------------------------------------------------------------- presence masks

  /** What `n` bits can stay below. */
  function Cap(n: nat): nat
    requires n <= 8
  {
    [1, 2, 4, 8, 16, 32, 64, 128, 256][n]
  }

  /** The byte with the given bits, least significant first. */
  function Mask(bits: seq<bool>): (m: byte)
    requires |bits| <= 8
    ensures m < Cap(|bits|)
  {
    if bits == [] then 0 else (if bits[0] then 1 else 0) + 2 * Mask(bits[1..])
  }

  /** Bit `k` of a mask. */
  predicate Has(mask: nat, k: nat) {
    if k == 0 then mask % 2 == 1 else Has(mask / 2, k - 1)
  }

  lemma {:induction false} MaskHas(bits: seq<bool>, k: nat)
    requires |bits| <= 8 && k < |bits|
    ensures Has(Mask(bits), k) == bits[k]
  {
    if k > 0 {
      MaskHas(bits[1..], k - 1);
    }
  }

  // ---------------------------------------------------------------- Guid

  datatype Guid = Guid(data1: u32, data2: u16, data3: u16, data4: bytes) {
    predicate Valid() { |data4| == 8 }
  }

  type AGuid = g: Guid | g.Valid() witness Guid(0, 0, 0, [0, 0, 0, 0, 0, 0, 0, 0])

  function EncGuid(g: AGuid): (e: Enc)
    ensures e.Written? && |e.data| == 16
  {
    EncU32(g.data1).Then(EncU16(g.data2)).Then(EncU16(g.data3)).Then(Written(g.data4))
  }

  function ReadGuid(buf: bytes, off: nat): (r: Parsed<AGuid>)
    ensures r.Ok? <==> off + 16 <= |buf|
    ensures r.Ok? ==> r.next == off + 16
  {
    var (a, o1) :- ReadU32(buf, off);
    var (b, o2) :- ReadU16(buf, o1);
    var (c, o3) :- ReadU16(buf, o2);
    var (d, o4) :- ReadBytes(buf, o3, 8);
    Ok(Guid(a, b, c, d), o4)
  }

  lemma GuidRoundTrip(buf: bytes, off: nat, g: AGuid)
    requires At(buf, off, EncGuid(g).data)
    ensures ReadGuid(buf, off) == Ok(g, off + 16)
  {
    var (a, b, c) := (EncU32(g.data1).data, EncU16(g.data2).data, EncU16(g.data3).data);
    AtConcat(buf, off, a + b + c, g.data4);
    AtConcat(buf, off, a + b, c);
    AtConcat(buf, off, a, b);
    U32RoundTrip(buf, off, g.data1);
    U16RoundTrip(buf, off + 4, g.data2);
    U16RoundTrip(buf, off + 6, g.data3);
  }

  // ---------------------------------------------------------------- NodeId

  /** `Undefined` is an identifier type outside the four the standard names. */
  datatype NodeId =
    | Numeric(ns: u16, id: u32)
    | StringId(ns: u16, text: bytes)
    | GuidId(ns: u16, guid: AGuid)
    | Opaque(ns: u16, blob: bytes)
    | Undefined(ns: u16)

  const NULL_NODE_ID := Numeric(0, 0)

  /** The flags an ExpandedNodeId adds to the encoding byte. */
  predicate IsFlags(flags: nat) {
    flags == 0 || flags == 0x40 || flags == 0x80 || flags == 0xC0
  }

  /** The encoding byte of each full form, without flags. */
  function Form(n: NodeId): nat {
    match n
    case Numeric(_, _) => 2
    case StringId(_, _) => 3
    case GuidId(_, _) => 4
    case Opaque(_, _) => 5
    case Undefined(_) => 6
  }

  function EncIdentifier(l: Limits, n: NodeId): (e: Enc)
    requires l.Valid()
    ensures e.Written? ==> 6 <= |e.data|
  {
    match n
    case Numeric(ns, id) => EncU16(ns).Then(EncU32(id))
    case StringId(ns, text) => EncU16(ns).Then(EncString(l, text))
    case GuidId(ns, guid) => EncU16(ns).Then(EncGuid(guid))
    case Opaque(ns, blob) => EncU16(ns).Then(EncByteString(l, blob))
    case Undefined(_) => Refused(EncodingError, [])
  }

  predicate TwoByte(n: NodeId, flags: nat) {
    flags == 0 && n.Numeric? && n.ns == 0 && n.id <= 0xFF
  }

  predicate FourByte(n: NodeId, flags: nat) {
    flags == 0 && n.Numeric? && n.ns <= 0xFF && n.id <= 0xFFFF
  }

  /** writeNodeIDWithFlags: the most compact form the value fits. */
  function EncNodeIdFlags(l: Limits, n: NodeId, flags: nat): (e: Enc)
    requires l.Valid() && IsFlags(flags)
    ensures e.Written? ==> 2 <= |e.data|
  {
    if TwoByte(n, flags) then EncByte(0).Then(EncByte(n.id))
    else if FourByte(n, flags) then EncByte(1).Then(EncByte(n.ns)).Then(EncU16(n.id))
    else if n.Undefined? then Refused(EncodingError, [])
    else EncByte(Form(n) + flags).Then(EncIdentifier(l, n))
  }

  function ReadIdentifier(l: Limits, form: nat, buf: bytes, off: nat): (r: Parsed<NodeId>)
    ensures r.Ok? ==> off + 6 <= r.next <= |buf|
  {
    if form == 2 then
      var (ns, o1) :- ReadU16(buf, off);
      var (id, o2) :- ReadU32(buf, o1);
      Ok(Numeric(ns, id), o2)
    else if form == 3 then
      var (ns, o1) :- ReadU16(buf, off);
      var (text, o2) :- ReadText(l, buf, o1);
      Ok(StringId(ns, text), o2)
    else if form == 4 then
      var (ns, o1) :- ReadU16(buf, off);
      var (guid, o2) :- ReadGuid(buf, o1);
      Ok(GuidId(ns, guid), o2)
    else if form == 5 then
      var (ns, o1) :- ReadU16(buf, off);
      var (blob, o2) :- ReadByteString(l, buf, o1);
      Ok(Opaque(ns, if blob.Some? then blob.value else []), o2)
    else Err(DecodingError)
  }

  function ReadCompact(form: nat, buf: bytes, off: nat): (r: Parsed<NodeId>)
    requires form <= 1
    ensures r.Ok? ==> off + 1 <= r.next <= |buf|
  {
    if form == 0 then
      var (id, o1) :- ReadByte(buf, off);
      Ok(Numeric(0, id), o1)
    else
      var (ns, o1) :- ReadByte(buf, off);
      var (id, o2) :- ReadU16(buf, o1);
      Ok(Numeric(ns, id), o2)
  }

  lemma FlagsOf(encoding: byte)
    ensures IsFlags(encoding - encoding % 0x40)
  {
  }

  /** readNodeIDWithFlags: the low six bits select the form, the top two are the flags. */
  function ReadNodeIdFlags(l: Limits, buf: bytes, off: nat): (r: Parsed<(NodeId, nat)>)
    ensures r.Ok? ==> off + 2 <= r.next <= |buf| && IsFlags(r.value.1)
  {
    var (encoding, o1) :- ReadByte(buf, off);
    var form := encoding % 0x40;
    FlagsOf(encoding);
    var (n, o2) :- if form <= 1 then ReadCompact(form, buf, o1) else ReadIdentifier(l, form, buf, o1);
    Ok((n, encoding - form), o2)
  }

  /** Three parts in a row. */
  lemma AtThree(buf: bytes, off: nat, a: bytes, b: bytes, c: bytes)
    requires At(buf, off, a + b + c)
    ensures At(buf, off, a) && At(buf, off + |a|, b) && At(buf, off + |a| + |b|, c)
  {
    AtConcat(buf, off, a + b, c);
    AtConcat(buf, off, a, b);
  }

  lemma IdentifierRoundTrip(l: Limits, buf: bytes, off: nat, n: NodeId)
    requires l.Valid() && EncIdentifier(l, n).Written? && At(buf, off, EncIdentifier(l, n).data)
    ensures ReadIdentifier(l, Form(n), buf, off) == Ok(n, off + |EncIdentifier(l, n).data|)
  {
    hide At, EncU16, ReadU16, EncU32, ReadU32, EncGuid, ReadGuid, EncBlob, ReadBlob, ReadText;
    match n
    case Numeric(ns, id) =>
      AtConcat(buf, off, EncU16(ns).data, EncU32(id).data);
      U16RoundTrip(buf, off, ns);
      U32RoundTrip(buf, off + 2, id);
    case StringId(ns, text) =>
      AtConcat(buf, off, EncU16(ns).data, EncString(l, text).data);
      U16RoundTrip(buf, off, ns);
      TextRoundTrip(l, buf, off + 2, text);
    case GuidId(ns, guid) =>
      AtConcat(buf, off, EncU16(ns).data, EncGuid(guid).data);
      U16RoundTrip(buf, off, ns);
      GuidRoundTrip(buf, off + 2, guid);
    case Opaque(ns, blob) =>
      AtConcat(buf, off, EncU16(ns).data, EncByteString(l, blob).data);
      U16RoundTrip(buf, off, ns);
      BlobRoundTrip(buf, off + 2, blob, l.maxByteStringBytes);
    case Undefined(_) =>
  }

  lemma NodeIdFlagsRoundTrip(l: Limits, buf: bytes, off: nat, n: NodeId, flags: nat)
    requires l.Valid() && IsFlags(flags)
    requires EncNodeIdFlags(l, n, flags).Written? && At(buf, off, EncNodeIdFlags(l, n, flags).data)
    ensures ReadNodeIdFlags(l, buf, off) == Ok((n, flags), off + |EncNodeIdFlags(l, n, flags).data|)
  {
    hide At, EncU16, ReadU16, ReadByte, EncIdentifier, ReadIdentifier;
    if TwoByte(n, flags) {
      AtConcat(buf, off, EncByte(0).data, EncByte(n.id).data);
      ByteRoundTrip(buf, off, 0);
      ByteRoundTrip(buf, off + 1, n.id);
    } else if FourByte(n, flags) {
      AtThree(buf, off, EncByte(1).data, EncByte(n.ns).data, EncU16(n.id).data);
      ByteRoundTrip(buf, off, 1);
      ByteRoundTrip(buf, off + 1, n.ns);
      U16RoundTrip(buf, off + 2, n.id);
    } else {
      AtConcat(buf, off, EncByte(Form(n) + flags).data, EncIdentifier(l, n).data);
      ByteRoundTrip(buf, off, Form(n) + flags);
      UndefinedIsRefused(l, n);
      IdentifierRoundTrip(l, buf, off + 1, n);
      assert (Form(n) + flags) % 0x40 == Form(n);
    }
  }

  lemma UndefinedIsRefused(l: Limits, n: NodeId)
    requires l.Valid()
    ensures n.Undefined? ==> EncIdentifier(l, n).Refused?
  {
  }

  function EncNodeId(l: Limits, n: NodeId): (e: Enc)
    requires l.Valid()
    ensures e.Written? ==> 2 <= |e.data|
  {
    EncNodeIdFlags(l, n, 0)
  }

  /** A plain NodeId that carries ExpandedNodeId flags is refused. */
  function ReadNodeId(l: Limits, buf: bytes, off: nat): (r: Parsed<NodeId>)
    ensures r.Ok? ==> off + 2 <= r.next <= |buf|
  {
    var (v, next) :- ReadNodeIdFlags(l, buf, off);
    if v.1 != 0 then Err(DecodingError) else Ok(v.0, next)
  }

  lemma NodeIdRoundTrip(l: Limits, buf: bytes, off: nat, n: NodeId)
    requires l.Valid() && EncNodeId(l, n).Written? && At(buf, off, EncNodeId(l, n).data)
    ensures ReadNodeId(l, buf, off) == Ok(n, off + |EncNodeId(l, n).data|)
  {
    NodeIdFlagsRoundTrip(l, buf, off, n, 0);
  }

  // ---------------------------------------------------------------- ExpandedNodeId

  datatype ExpandedNodeId = ExpandedNodeId(node: NodeId, uri: Option<bytes>, serverIndex: Option<u32>)

  function WithNamespace(n: NodeId, ns: u16): NodeId {
    match n
    case Numeric(_, id) => Numeric(ns, id)
    case StringId(_, text) => StringId(ns, text)
    case GuidId(_, guid) => GuidId(ns, guid)
    case Opaque(_, blob) => Opaque(ns, blob)
    case Undefined(_) => Undefined(ns)
  }

  /** With a NamespaceUri the index is to be ignored, and is written as zero. */
  function CanonExpanded(x: ExpandedNodeId): ExpandedNodeId {
    if x.uri.Some? then x.(node := WithNamespace(x.node, 0)) else x
  }

  function ExpandedFlags(x: ExpandedNodeId): (flags: nat)
    ensures IsFlags(flags)
  {
    (if x.uri.Some? then 0x80 else 0) + (if x.serverIndex.Some? then 0x40 else 0)
  }

  function EncExpandedNodeId(l: Limits, x: ExpandedNodeId): (e: Enc)
    requires l.Valid()
    ensures e.Written? ==> 2 <= |e.data|
  {
    EncNodeIdFlags(l, CanonExpanded(x).node, ExpandedFlags(x))
      .Then(if x.uri.Some? then EncString(l, x.uri.value) else Written([]))
      .Then(if x.serverIndex.Some? then EncU32(x.serverIndex.value) else Written([]))
  }

  function ReadExpandedNodeId(l: Limits, buf: bytes, off: nat): (r: Parsed<ExpandedNodeId>)
    ensures r.Ok? ==> off + 2 <= r.next <= |buf|
  {
    var (v, o1) :- ReadNodeIdFlags(l, buf, off);
    var (uri, o2) :- if v.1 >= 0x80 then ReadSomeText(l, buf, o1) else Ok(None, o1);
    var (index, o3) :- if v.1 == 0x40 || v.1 == 0xC0 then ReadSomeU32(buf, o2) else Ok(None, o2);
    Ok(ExpandedNodeId(v.0, uri, index), o3)
  }

  function ReadSomeText(l: Limits, buf: bytes, off: nat): (r: Parsed<Option<bytes>>)
    ensures r.Ok? ==> off + 4 <= r.next <= |buf| && r.value.Some?
  {
    var (v, next) :- ReadText(l, buf, off);
    Ok(Some(v), next)
  }

  function ReadSomeU32(buf: bytes, off: nat): (r: Parsed<Option<u32>>)
    ensures r.Ok? ==> off + 4 == r.next <= |buf| && r.value.Some?
  {
    var (v, next) :- ReadU32(buf, off);
    Ok(Some(v), next)
  }

  lemma ExpandedNodeIdRoundTrip(l: Limits, buf: bytes, off: nat, x: ExpandedNodeId)
    requires l.Valid() && EncExpandedNodeId(l, x).Written? && At(buf, off, EncExpandedNodeId(l, x).data)
    ensures ReadExpandedNodeId(l, buf, off) == Ok(CanonExpanded(x), off + |EncExpandedNodeId(l, x).data|)
  {
    hide At, EncNodeIdFlags, ReadNodeIdFlags, WithNamespace, EncString, ReadText, EncU32, ReadU32;
    var a := EncNodeIdFlags(l, CanonExpanded(x).node, ExpandedFlags(x));
    var b := if x.uri.Some? then EncString(l, x.uri.value) else Written([]);
    var c := if x.serverIndex.Some? then EncU32(x.serverIndex.value) else Written([]);
    AtThree(buf, off, a.data, b.data, c.data);
    NodeIdFlagsRoundTrip(l, buf, off, CanonExpanded(x).node, ExpandedFlags(x));
    if x.uri.Some? {
      TextRoundTrip(l, buf, off + |a.data|, x.uri.value);
    }
    if x.serverIndex.Some? {
      U32RoundTrip(buf, off + |a.data| + |b.data|, x.serverIndex.value);
    }
  }

  // ---------------------------------------------------------------- QualifiedName, LocalizedText

  datatype QualifiedName = QualifiedName(ns: u16, name: bytes)

  function EncQualifiedName(l: Limits, q: QualifiedName): (e: Enc)
    requires l.Valid()
    ensures e.Written? ==> 6 <= |e.data|
  {
    EncU16(q.ns).Then(EncString(l, q.name))
  }

  function ReadQualifiedName(l: Limits, buf: bytes, off: nat): (r: Parsed<QualifiedName>)
    ensures r.Ok? ==> off + 6 <= r.next <= |buf|
  {
    var (ns, o1) :- ReadU16(buf, off);
    var (name, o2) :- ReadText(l, buf, o1);
    Ok(QualifiedName(ns, name), o2)
  }

  lemma QualifiedNameRoundTrip(l: Limits, buf: bytes, off: nat, q: QualifiedName)
    requires l.Valid() && EncQualifiedName(l, q).Written? && At(buf, off, EncQualifiedName(l, q).data)
    ensures ReadQualifiedName(l, buf, off) == Ok(q, off + |EncQualifiedName(l, q).data|)
  {
    AtConcat(buf, off, EncU16(q.ns).data, EncString(l, q.name).data);
    U16RoundTrip(buf, off, q.ns);
    TextRoundTrip(l, buf, off + 2, q.name);
  }

  datatype LocalizedText = LocalizedText(locale: bytes, text: bytes)

  /** A field is written only when it is not empty. */
  function EncField(l: Limits, v: bytes): Enc
    requires l.Valid()
  {
    if v == [] then Written([]) else EncString(l, v)
  }

  function EncLocalizedText(l: Limits, t: LocalizedText): (e: Enc)
    requires l.Valid()
    ensures e.Written? ==> 1 <= |e.data|
  {
    EncByte(Mask([t.locale != [], t.text != []])).Then(EncField(l, t.locale)).Then(EncField(l, t.text))
  }

  function ReadLocalizedText(l: Limits, buf: bytes, off: nat): (r: Parsed<LocalizedText>)
    ensures r.Ok? ==> off + 1 <= r.next <= |buf|
  {
    var (mask, o1) :- ReadByte(buf, off);
    var (locale, o2) :- if Has(mask, 0) then ReadText(l, buf, o1) else Ok([], o1);
    var (text, o3) :- if Has(mask, 1) then ReadText(l, buf, o2) else Ok([], o2);
    Ok(LocalizedText(locale, text), o3)
  }

  lemma LocalizedTextRoundTrip(l: Limits, buf: bytes, off: nat, t: LocalizedText)
    requires l.Valid() && EncLocalizedText(l, t).Written? && At(buf, off, EncLocalizedText(l, t).data)
    ensures ReadLocalizedText(l, buf, off) == Ok(t, off + |EncLocalizedText(l, t).data|)
  {
    hide At, Has, Mask, EncString, ReadText, ReadByte;
    var mask := Mask([t.locale != [], t.text != []]);
    MaskHas([t.locale != [], t.text != []], 0);
    MaskHas([t.locale != [], t.text != []], 1);
    var (a, b) := (EncField(l, t.locale).data, EncField(l, t.text).data);
    AtThree(buf, off, EncByte(mask).data, a, b);
    ByteRoundTrip(buf, off, mask);
    if t.locale != [] {
      TextRoundTrip(l, buf, off + 1, t.locale);
    }
    if t.text != [] {
      TextRoundTrip(l, buf, off + 1 + |a|, t.text);
    }
  }

  // ---------------------------------------------------------------- ExtensionObject

  datatype ExtensionObject = ExtensionObject(typeId: NodeId, encoding: byte, body: bytes)

  /** A body is carried only by the two encodings that have one. */
  function CanonObject(x: ExtensionObject): ExtensionObject {
    if x.encoding == 0 then x.(body := []) else x
  }

  function EncBody(l: Limits, x: ExtensionObject): (e: Enc)
    requires l.Valid()
    ensures e.Written? ==> 1 <= |e.data|
  {
    if x.encoding == 0 then EncByte(0)
    else if x.encoding == 1 || x.encoding == 2 then EncByte(x.encoding).Then(EncByteString(l, x.body))
    else Refused(EncodingError, [])
  }

  function EncExtensionObject(l: Limits, x: ExtensionObject): (e: Enc)
    requires l.Valid()
    ensures e.Written? ==> 3 <= |e.data|
  {
    EncNodeId(l, x.typeId).Then(EncBody(l, x))
  }

  function ReadExtensionObject(l: Limits, buf: bytes, off: nat): (r: Parsed<ExtensionObject>)
    ensures r.Ok? ==> off + 3 <= r.next <= |buf|
  {
    var (typeId, o1) :- ReadNodeId(l, buf, off);
    var (encoding, o2) :- ReadByte(buf, o1);
    if encoding == 0 then Ok(ExtensionObject(typeId, 0, []), o2)
    else if encoding == 1 || encoding == 2 then
      var (body, o3) :- ReadByteString(l, buf, o2);
      Ok(ExtensionObject(typeId, encoding, if body.Some? then body.value else []), o3)
    else Err(DecodingError)
  }

  lemma ExtensionObjectRoundTrip(l: Limits, buf: bytes, off: nat, x: ExtensionObject)
    requires l.Valid() && EncExtensionObject(l, x).Written? && At(buf, off, EncExtensionObject(l, x).data)
    ensures ReadExtensionObject(l, buf, off) == Ok(CanonObject(x), off + |EncExtensionObject(l, x).data|)
  {
    hide At, EncNodeId, ReadNodeId, EncBlob, ReadBlob, ReadByte;
    var a := EncNodeId(l, x.typeId).data;
    AtConcat(buf, off, a, EncBody(l, x).data);
    NodeIdRoundTrip(l, buf, off, x.typeId);
    if x.encoding == 0 {
      ByteRoundTrip(buf, off + |a|, 0);
    } else {
      AtConcat(buf, off + |a|, EncByte(x.encoding).data, EncByteString(l, x.body).data);
      ByteRoundTrip(buf, off + |a|, x.encoding);
      BlobRoundTrip(buf, off + |a| + 1, x.body, l.maxByteStringBytes);
    }
  }

  // ---------------------------------------------------------------- DiagnosticInfo

  const MAX_DIAGNOSTIC_RECURSION := 10

  datatype DiagnosticInfo = DiagnosticInfo(
    symbolicId: Option<i32>,
    namespaceUri: Option<i32>,
    locale: Option<i32>,
    localizedText: Option<i32>,
    additionalInfo: Option<bytes>,
    innerStatus: Option<u32>,
    inner: Option<DiagnosticInfo>)

  /** The order of the bits, which is not the order the fields are written in. */
  function Presence(d: DiagnosticInfo): (bits: seq<bool>)
    ensures |bits| == 7
  {
    [d.symbolicId.Some?, d.namespaceUri.Some?, d.localizedText.Some?, d.locale.Some?,
     d.additionalInfo.Some?, d.innerStatus.Some?, d.inner.Some?]
  }

  function DiagnosticMask(d: DiagnosticInfo): byte {
    Mask(Presence(d))
  }

  function EncIndex(i: Option<i32>): Enc {
    if i.Some? then EncI32(i.value) else Written([])
  }

  function EncIndexes(d: DiagnosticInfo): (e: Enc)
    ensures e.Written?
  {
    EncIndex(d.symbolicId).Then(EncIndex(d.namespaceUri)).Then(EncIndex(d.locale)).Then(EncIndex(d.localizedText))
  }

  function EncDetails(l: Limits, d: DiagnosticInfo): Enc
    requires l.Valid()
  {
    (if d.additionalInfo.Some? then EncString(l, d.additionalInfo.value) else Written([]))
      .Then(if d.innerStatus.Some? then EncU32(d.innerStatus.value) else Written([]))
  }

  /** The flat part: the mask and every field but the inner info, in the order of the table's rows. */
  function EncDiagnosticFields(l: Limits, d: DiagnosticInfo): (e: Enc)
    requires l.Valid()
    ensures e.Written? ==> 1 <= |e.data|
  {
    EncByte(DiagnosticMask(d)).Then(EncIndexes(d)).Then(EncDetails(l, d))
  }

  function EncDiagnosticInfoAt(l: Limits, d: DiagnosticInfo, depth: nat): (e: Enc)
    requires l.Valid()
    ensures e.Written? ==> 1 <= |e.data|
    decreases d
  {
    if depth > MAX_DIAGNOSTIC_RECURSION then Refused(LimitsExceeded, [])
    else
      EncDiagnosticFields(l, d).Then(if d.inner.Some? then EncDiagnosticInfoAt(l, d.inner.value, depth + 1) else Written([]))
  }

  function ReadIndex(present: bool, buf: bytes, off: nat): (r: Parsed<Option<i32>>)
    ensures r.Ok? ==> off <= r.next && (off <= |buf| ==> r.next <= |buf|)
  {
    if present then
      var (v, next) :- ReadI32(buf, off);
      Ok(Some(v), next)
    else Ok(None, off)
  }

  datatype Indexes = Indexes(symbolicId: Option<i32>, namespaceUri: Option<i32>, locale: Option<i32>, localizedText: Option<i32>)

  function ReadIndexes(mask: byte, buf: bytes, off: nat): (r: Parsed<Indexes>)
    ensures r.Ok? ==> off <= r.next && (off <= |buf| ==> r.next <= |buf|)
  {
    var (symbolicId, o2) :- ReadIndex(Has(mask, 0), buf, off);
    var (namespaceUri, o3) :- ReadIndex(Has(mask, 1), buf, o2);
    var (locale, o4) :- ReadIndex(Has(mask, 3), buf, o3);
    var (localizedText, o5) :- ReadIndex(Has(mask, 2), buf, o4);
    Ok(Indexes(symbolicId, namespaceUri, locale, localizedText), o5)
  }

  function ReadDetails(l: Limits, mask: byte, buf: bytes, off: nat): (r: Parsed<(Option<bytes>, Option<u32>)>)
    ensures r.Ok? ==> off <= r.next && (off <= |buf| ==> r.next <= |buf|)
  {
    var (additionalInfo, o1) :- if Has(mask, 4) then ReadSomeText(l, buf, off) else Ok(None, off);
    var (innerStatus, o2) :- if Has(mask, 5) then ReadSomeU32(buf, o1) else Ok(None, o1);
    Ok((additionalInfo, innerStatus), o2)
  }

  function ReadDiagnosticFields(l: Limits, buf: bytes, off: nat): (r: Parsed<(DiagnosticInfo, bool)>)
    ensures r.Ok? ==> off + 1 <= r.next <= |buf|
  {
    var (mask, o1) :- ReadByte(buf, off);
    var (i, o2) :- ReadIndexes(mask, buf, o1);
    var (d, o3) :- ReadDetails(l, mask, buf, o2);
    Ok((DiagnosticInfo(i.symbolicId, i.namespaceUri, i.locale, i.localizedText, d.0, d.1, None), Has(mask, 6)), o3)
  }

  function ReadDiagnosticInfoAt(l: Limits, buf: bytes, off: nat, depth: nat): (r: Parsed<DiagnosticInfo>)
    ensures r.Ok? ==> off + 1 <= r.next <= |buf|
    decreases MAX_DIAGNOSTIC_RECURSION + 1 - depth
  {
    if depth > MAX_DIAGNOSTIC_RECURSION then Err(LimitsExceeded)
    else
      var (fields, o1) :- ReadDiagnosticFields(l, buf, off);
      if !fields.1 then Ok(fields.0, o1)
      else
        var (inner, o2) :- ReadDiagnosticInfoAt(l, buf, o1, depth + 1);
        Ok(fields.0.(inner := Some(inner)), o2)
  }

  lemma MaskOf(d: DiagnosticInfo)
    ensures var m := DiagnosticMask(d);
      && Has(m, 0) == d.symbolicId.Some? && Has(m, 1) == d.namespaceUri.Some? && Has(m, 2) == d.localizedText.Some?
      && Has(m, 3) == d.locale.Some? && Has(m, 4) == d.additionalInfo.Some? && Has(m, 5) == d.innerStatus.Some?
      && Has(m, 6) == d.inner.Some?
  {
    hide Has, Mask;
    forall k | 0 <= k < 7 ensures Has(DiagnosticMask(d), k) == Presence(d)[k] {
      MaskHas(Presence(d), k);
    }
  }

  lemma IndexRoundTrip(buf: bytes, off: nat, i: Option<i32>)
    requires At(buf, off, EncIndex(i).data)
    ensures ReadIndex(i.Some?, buf, off) == Ok(i, off + |EncIndex(i).data|)
  {
    if i.Some? {
      I32RoundTrip(buf, off, i.value);
    }
  }

  lemma IndexesRoundTrip(buf: bytes, off: nat, d: DiagnosticInfo)
    requires At(buf, off, EncIndexes(d).data)
    ensures ReadIndexes(DiagnosticMask(d), buf, off)
      == Ok(Indexes(d.symbolicId, d.namespaceUri, d.locale, d.localizedText), off + |EncIndexes(d).data|)
  {
    MaskOf(d);
    IndexIsWire(d.symbolicId);
    IndexIsWire(d.namespaceUri);
    IndexIsWire(d.locale);
    IndexIsWire(d.localizedText);
    hide At, Has, DiagnosticMask, EncIndex, ReadIndex;
    var (a, b, c, e) := (EncIndex(d.symbolicId).data, EncIndex(d.namespaceUri).data, EncIndex(d.locale).data, EncIndex(d.localizedText).data);
    AtConcat(buf, off, a + b + c, e);
    AtThree(buf, off, a, b, c);
    IndexRoundTrip(buf, off, d.symbolicId);
    IndexRoundTrip(buf, off + |a|, d.namespaceUri);
    IndexRoundTrip(buf, off + |a| + |b|, d.locale);
    IndexRoundTrip(buf, off + |a| + |b| + |c|, d.localizedText);
  }

  lemma DetailsRoundTrip(l: Limits, buf: bytes, off: nat, d: DiagnosticInfo)
    requires l.Valid() && EncDetails(l, d).Written? && At(buf, off, EncDetails(l, d).data)
    ensures ReadDetails(l, DiagnosticMask(d), buf, off) == Ok((d.additionalInfo, d.innerStatus), off + |EncDetails(l, d).data|)
  {
    MaskOf(d);
    hide At, Has, DiagnosticMask, EncString, EncU32, ReadU32, ReadText;
    var f := if d.additionalInfo.Some? then EncString(l, d.additionalInfo.value) else Written([]);
    var g := if d.innerStatus.Some? then EncU32(d.innerStatus.value) else Written([]);
    AtConcat(buf, off, f.data, g.data);
    if d.additionalInfo.Some? {
      TextRoundTrip(l, buf, off, d.additionalInfo.value);
    }
    if d.innerStatus.Some? {
      U32RoundTrip(buf, off + |f.data|, d.innerStatus.value);
    }
  }

  lemma DiagnosticFieldsRoundTrip(l: Limits, buf: bytes, off: nat, d: DiagnosticInfo)
    requires l.Valid() && EncDiagnosticFields(l, d).Written? && At(buf, off, EncDiagnosticFields(l, d).data)
    ensures ReadDiagnosticFields(l, buf, off) == Ok((d.(inner := None), d.inner.Some?), off + |EncDiagnosticFields(l, d).data|)
  {
    MaskOf(d);
    hide At, Has, DiagnosticMask, EncIndexes, ReadIndexes, EncDetails, ReadDetails, ReadByte;
    var m := EncByte(DiagnosticMask(d)).data;
    AtThree(buf, off, m, EncIndexes(d).data, EncDetails(l, d).data);
    ByteRoundTrip(buf, off, DiagnosticMask(d));
    IndexesRoundTrip(buf, off + 1, d);
    DetailsRoundTrip(l, buf, off + 1 + |EncIndexes(d).data|, d);
  }

  lemma IndexIsWire(i: Option<i32>)
    ensures EncIndex(i).Written?
  {
  }

  /** Every DiagnosticInfo the encoder accepts, however deep, reads back as itself. */
  lemma {:induction false} DiagnosticInfoRoundTripAt(l: Limits, buf: bytes, off: nat, d: DiagnosticInfo, depth: nat)
    requires l.Valid() && EncDiagnosticInfoAt(l, d, depth).Written? && At(buf, off, EncDiagnosticInfoAt(l, d, depth).data)
    ensures ReadDiagnosticInfoAt(l, buf, off, depth) == Ok(d, off + |EncDiagnosticInfoAt(l, d, depth).data|)
    decreases d
  {
    hide At, EncDiagnosticFields, ReadDiagnosticFields;
    var a := EncDiagnosticFields(l, d).data;
    var b := if d.inner.Some? then EncDiagnosticInfoAt(l, d.inner.value, depth + 1) else Written([]);
    AtConcat(buf, off, a, b.data);
    DiagnosticFieldsRoundTrip(l, buf, off, d);
    if d.inner.Some? {
      DiagnosticInfoRoundTripAt(l, buf, off + |a|, d.inner.value, depth + 1);
    }
  }

  function Levels(d: DiagnosticInfo): nat {
    if d.inner.Some? then 1 + Levels(d.inner.value) else 0
  }

  /** Every text in the info and those nested in it is within the limit. */
  predicate TextsFit(l: Limits, d: DiagnosticInfo) {
    && (d.additionalInfo.Some? ==> |d.additionalInfo.value| <= l.maxStringBytes)
    && (d.inner.Some? ==> TextsFit(l, d.inner.value))
  }

  lemma FieldsAreWritten(l: Limits, d: DiagnosticInfo)
    requires l.Valid()
    ensures EncDiagnosticFields(l, d).Written? <==> (d.additionalInfo.Some? ==> |d.additionalInfo.value| <= l.maxStringBytes)
  {
    hide Mask, EncIndexes, EncI32;
  }

  /** The writer takes an info exactly when it nests no deeper than ten levels and its texts are within the limit. */
  lemma {:induction false} NestingExactly(l: Limits, d: DiagnosticInfo, depth: nat)
    requires l.Valid()
    ensures EncDiagnosticInfoAt(l, d, depth).Written? <==> depth + Levels(d) <= MAX_DIAGNOSTIC_RECURSION && TextsFit(l, d)
    decreases d
  {
    hide EncDiagnosticFields;
    FieldsAreWritten(l, d);
    if d.inner.Some? {
      NestingExactly(l, d.inner.value, depth + 1);
    }
  }

  function EncDiagnosticInfo(l: Limits, d: DiagnosticInfo): (e: Enc)
    requires l.Valid()
    ensures e.Written? ==> 1 <= |e.data|
  {
    EncDiagnosticInfoAt(l, d, 0)
  }

  function ReadDiagnosticInfo(l: Limits, buf: bytes, off: nat): (r: Parsed<DiagnosticInfo>)
    ensures r.Ok? ==> off + 1 <= r.next <= |buf|
  {
    ReadDiagnosticInfoAt(l, buf, off, 0)
  }

  lemma DiagnosticInfoRoundTrip(l: Limits, buf: bytes, off: nat, d: DiagnosticInfo)
    requires l.Valid() && EncDiagnosticInfo(l, d).Written? && At(buf, off, EncDiagnosticInfo(l, d).data)
    ensures ReadDiagnosticInfo(l, buf, off) == Ok(d, off + |EncDiagnosticInfo(l, d).data|)
  {
    DiagnosticInfoRoundTripAt(l, buf, off, d, 0);
  }
}
