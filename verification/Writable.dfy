/** Which values the writers take: each type's exact condition, from the length of a text to a whole message. */
module Writable {
  import opened Prelude
  import opened Ints
  import opened Wire
  import opened NodeIds
  import opened Variants
  import opened Messages

  predicate FitsText(l: Limits, v: bytes) { |v| <= l.maxStringBytes }

  predicate FitsNode(l: Limits, n: NodeId) {
    !n.Undefined? && (n.StringId? ==> |n.text| <= l.maxStringBytes) && (n.Opaque? ==> |n.blob| <= l.maxByteStringBytes)
  }

  predicate FitsExpanded(l: Limits, x: ExpandedNodeId) { FitsNode(l, x.node) && (x.uri.Some? ==> |x.uri.value| <= l.maxStringBytes) }

  predicate FitsObject(l: Limits, x: ExtensionObject) {
    FitsNode(l, x.typeId) && x.encoding <= 2 && (x.encoding != 0 ==> |x.body| <= l.maxByteStringBytes)
  }

  predicate FitsLocalized(l: Limits, t: LocalizedText) { |t.locale| <= l.maxStringBytes && |t.text| <= l.maxStringBytes }

  /** Every type the adapter writes. */
  predicate FitsValue(l: Limits, v: Value) {
    match v
    case VString(x) => |x| <= l.maxStringBytes
    case VByteString(x) => |x| <= l.maxByteStringBytes
    case VNodeId(x) => FitsNode(l, x)
    case VName(x) => |x.name| <= l.maxStringBytes
    case VText(x) => FitsLocalized(l, x)
    case VObject(x) => FitsObject(l, x)
    case NoValue => false
    case VExpanded(_) => false
    case VDataValue(_) => false
    case VDiagnostic(_) => false
    case Slice(_) => false
    case _ => true
  }

  /** A value of the declared type; of an array, one from Boolean to String for every element. */
  predicate FitsVariant(l: Limits, v: Variant) {
    if v.isArray then
      && v.value.Slice? && 1 <= v.typeId <= 12 && |v.value.elements| < 0x8000_0000 && |v.dimensions| < 0x8000_0000
      && forall i :: 0 <= i < |v.value.elements| ==> TypeOf(v.value.elements[i]) == v.typeId && FitsValue(l, v.value.elements[i])
    else v.typeId == 0 || (v.typeId <= 25 && TypeOf(v.value) == v.typeId && FitsValue(l, v.value))
  }

  predicate FitsDataValue(l: Limits, d: DataValue) { d.value.typeId != 0 ==> FitsVariant(l, d.value) }

  lemma NodeWritten(l: Limits, n: NodeId, flags: nat)
    requires l.Valid() && IsFlags(flags)
    ensures EncNodeIdFlags(l, n, flags).Written? <==> FitsNode(l, n)
  {
    hide EncU16, EncU32, EncGuid;
  }

  lemma ExpandedWritten(l: Limits, x: ExpandedNodeId)
    requires l.Valid()
    ensures EncExpandedNodeId(l, x).Written? <==> FitsExpanded(l, x)
  {
    hide EncNodeIdFlags, EncU32;
    NodeWritten(l, CanonExpanded(x).node, ExpandedFlags(x));
  }

  lemma ObjectWritten(l: Limits, x: ExtensionObject)
    requires l.Valid()
    ensures EncExtensionObject(l, x).Written? <==> FitsObject(l, x)
  {
    hide EncNodeIdFlags;
    NodeWritten(l, x.typeId, 0);
  }

  lemma ValueWritten(l: Limits, v: Value)
    requires l.Valid()
    ensures EncValue(l, v).Written? <==> FitsValue(l, v)
  {
    hide EncU16, EncU32, EncU64, EncGuid, EncNodeIdFlags, EncExtensionObject, FitsNode, FitsObject, Mask;
    match v
    case VNodeId(x) => NodeWritten(l, x, 0);
    case VObject(x) => ObjectWritten(l, x);
    case _ =>
  }

  lemma {:induction false} ElementsWritten(l: Limits, vs: seq<Value>)
    requires l.Valid()
    ensures EncElements(l, vs).Written? <==> forall i :: 0 <= i < |vs| ==> FitsValue(l, vs[i])
  {
    hide EncValue, FitsValue;
    if vs != [] {
      ValueWritten(l, vs[0]);
      ElementsWritten(l, vs[1..]);
      assert forall i :: 0 < i < |vs| ==> vs[i] == vs[1..][i - 1];
      assert EncElements(l, vs).Written? ==> forall i :: 0 <= i < |vs| ==> FitsValue(l, vs[i]);
    }
  }

  lemma VariantWritten(l: Limits, v: Variant)
    requires l.Valid()
    ensures EncVariant(l, v).Written? <==> FitsVariant(l, v)
  {
    hide EncValue, FitsValue, EncElements, EncDimensions, EncU32;
    if v.isArray && v.value.Slice? {
      ElementsWritten(l, v.value.elements);
    } else {
      ValueWritten(l, v.value);
    }
  }

  lemma DataValueWritten(l: Limits, d: DataValue)
    requires l.Valid()
    ensures EncDataValue(l, d).Written? <==> FitsDataValue(l, d)
  {
    hide EncVariant, FitsVariant, EncStamps, Mask;
    VariantWritten(l, d.value);
  }

  // ---------------------------------------------------------------- lists and messages

  ghost predicate FitsList<T(!new)>(l: Limits, fits: T -> bool, xs: seq<T>) {
    |xs| <= l.maxArrayLength && forall i :: 0 <= i < |xs| ==> fits(xs[i])
  }

  lemma {:induction false} AllWritten<T(!new)>(enc: T -> Enc, fits: T -> bool, xs: seq<T>)
    requires forall x :: enc(x).Written? <==> fits(x)
    ensures EncAll(enc, xs).Written? <==> forall i :: 0 <= i < |xs| ==> fits(xs[i])
  {
    if xs != [] {
      AllWritten(enc, fits, xs[1..]);
      assert forall i :: 0 < i < |xs| ==> xs[i] == xs[1..][i - 1];
    }
  }

  lemma ListWritten<T(!new)>(l: Bounds, f: Format<T>, fits: T -> bool, xs: seq<T>)
    requires forall x :: f.enc(x).Written? <==> fits(x)
    ensures EncList(l, f, xs).Written? <==> FitsList(l, fits, xs)
  {
    hide EncAll;
    AllWritten(f.enc, fits, xs);
  }

  predicate FitsRequestHeader(l: Limits, h: RequestHeader) { FitsNode(l, h.token) && FitsText(l, h.auditEntry) && FitsObject(l, h.additional) }

  lemma RequestHeaderWritten(l: Bounds, h: RequestHeader)
    ensures EncRequestHeader(l, h).Written? <==> FitsRequestHeader(l, h)
  {
    hide EncNodeIdFlags, EncDateTime, EncU32, EncExtensionObject, FitsNode, FitsObject;
    NodeWritten(l, h.token, 0);
    ObjectWritten(l, h.additional);
  }

  predicate FitsDiagnostic(l: Limits, d: DiagnosticInfo) { Levels(d) <= 10 && TextsFit(l, d) }

  lemma DiagnosticWritten(l: Limits, d: DiagnosticInfo)
    requires l.Valid()
    ensures EncDiagnosticInfo(l, d).Written? <==> FitsDiagnostic(l, d)
  {
    hide EncDiagnosticInfoAt, Levels, TextsFit;
    NestingExactly(l, d, 0);
  }

  ghost predicate FitsResponseHeader(l: Limits, h: ResponseHeader) {
    && FitsDiagnostic(l, h.diagnostics) && FitsObject(l, h.additional)
    && (h.strings.Some? ==> FitsList(l, (x: bytes) => FitsText(l, x), h.strings.value))
  }

  lemma ResponseHeaderWritten(l: Bounds, h: ResponseHeader)
    ensures EncResponseHeader(l, h).Written? <==> FitsResponseHeader(l, h)
  {
    hide EncDateTime, EncU32, EncI32, EncDiagnosticInfo, FitsDiagnostic, EncExtensionObject, FitsObject, EncList, FitsList;
    DiagnosticWritten(l, h.diagnostics);
    ObjectWritten(l, h.additional);
    if h.strings.Some? {
      ListWritten(l, Texts(l), (x: bytes) => FitsText(l, x), h.strings.value);
    }
  }

  predicate FitsBrowseDescription(l: Limits, b: BrowseDescription) { FitsNode(l, b.node) && FitsNode(l, b.referenceType) }

  /** A Browse request is written exactly if its header, its view and each description are, and there are not too many of these. */
  lemma BrowseRequestWritten(l: Bounds, r: BrowseRequest)
    ensures EncBrowseRequest(l, r).Written?
      <==> FitsRequestHeader(l, r.header) && FitsNode(l, r.view.view) && FitsList(l, (b: BrowseDescription) => FitsBrowseDescription(l, b), r.nodes)
  {
    hide EncRequestHeader, FitsRequestHeader, EncNodeIdFlags, FitsNode, EncDateTime, EncU32, EncI32, EncList, FitsList;
    NodeWritten(l, Numeric(0, 527), 0);
    Known(l, 527);
    RequestHeaderWritten(l, r.header);
    NodeWritten(l, r.view.view, 0);
    forall b ensures BrowseDescriptions(l).enc(b).Written? <==> FitsBrowseDescription(l, b) {
      NodeWritten(l, b.node, 0);
      NodeWritten(l, b.referenceType, 0);
    }
    ListWritten(l, BrowseDescriptions(l), (b: BrowseDescription) => FitsBrowseDescription(l, b), r.nodes);
  }

  lemma Known(l: Limits, id: u32)
    ensures FitsNode(l, Numeric(0, id))
  {
  }

  predicate FitsReadValueId(l: Limits, v: ReadValueId) { FitsNode(l, v.node) && FitsText(l, v.indexRange) && FitsText(l, v.encoding.name) }

  lemma ReadValueIdWritten(l: Bounds, v: ReadValueId)
    ensures EncReadValueId(l, v).Written? <==> FitsReadValueId(l, v)
  {
    hide EncNodeIdFlags, FitsNode, EncU32, EncU16, EncI32;
    NodeWritten(l, v.node, 0);
    IsWritten(-1);
  }

  lemma IsWritten(v: i32)
    ensures EncI32(v).Written?
  {
  }

  lemma ReadRequestWritten(l: Bounds, r: ReadRequest)
    ensures EncReadRequest(l, r).Written? <==> FitsRequestHeader(l, r.header) && FitsList(l, (v: ReadValueId) => FitsReadValueId(l, v), r.nodes)
  {
    hide EncRequestHeader, FitsRequestHeader, EncNodeIdFlags, FitsNode, EncU64, EncI32, EncList, FitsList, EncReadValueId, FitsReadValueId;
    NodeWritten(l, Numeric(0, 631), 0);
    Known(l, 631);
    RequestHeaderWritten(l, r.header);
    forall v ensures ReadValueIds(l).enc(v).Written? <==> FitsReadValueId(l, v) {
      ReadValueIdWritten(l, v);
    }
    ListWritten(l, ReadValueIds(l), (v: ReadValueId) => FitsReadValueId(l, v), r.nodes);
  }

  predicate FitsWriteValue(l: Limits, v: WriteValue) { FitsNode(l, v.node) && FitsText(l, v.indexRange) && FitsDataValue(l, v.value) }

  lemma WriteValueWritten(l: Bounds, v: WriteValue)
    ensures EncWriteValue(l, v).Written? <==> FitsWriteValue(l, v)
  {
    hide EncNodeIdFlags, FitsNode, EncU32, EncI32, EncDataValue, FitsDataValue;
    NodeWritten(l, v.node, 0);
    DataValueWritten(l, v.value);
    IsWritten(-1);
  }

  lemma WriteRequestWritten(l: Bounds, r: WriteRequest)
    ensures EncWriteRequest(l, r).Written? <==> FitsRequestHeader(l, r.header) && FitsList(l, (v: WriteValue) => FitsWriteValue(l, v), r.nodes)
  {
    hide EncRequestHeader, FitsRequestHeader, EncNodeIdFlags, FitsNode, EncList, FitsList, EncWriteValue, FitsWriteValue, Readable;
    NodeWritten(l, Numeric(0, 673), 0);
    Known(l, 673);
    RequestHeaderWritten(l, r.header);
    forall v ensures WriteValues(l).enc(v).Written? <==> FitsWriteValue(l, v) {
      WriteValueWritten(l, v);
    }
    ListWritten(l, WriteValues(l), (v: WriteValue) => FitsWriteValue(l, v), r.nodes);
  }

  predicate FitsItemRequest(l: Limits, i: ItemRequest) { FitsReadValueId(l, i.item) && FitsObject(l, i.parameters.filter) }

  lemma ItemRequestWritten(l: Bounds, i: ItemRequest)
    ensures EncItemRequest(l, i).Written? <==> FitsItemRequest(l, i)
  {
    hide EncReadValueId, FitsReadValueId, EncU32, EncU64, EncI32, EncExtensionObject, FitsObject;
    ReadValueIdWritten(l, i.item);
    ObjectWritten(l, i.parameters.filter);
  }

  lemma CreateMonitoredItemsRequestWritten(l: Bounds, r: CreateMonitoredItemsRequest)
    ensures EncCreateMonitoredItemsRequest(l, r).Written? <==> FitsRequestHeader(l, r.header) && FitsList(l, (i: ItemRequest) => FitsItemRequest(l, i), r.items)
  {
    hide EncRequestHeader, FitsRequestHeader, EncNodeIdFlags, FitsNode, EncU32, EncI32, EncList, FitsList, EncItemRequest, FitsItemRequest;
    NodeWritten(l, Numeric(0, 751), 0);
    Known(l, 751);
    RequestHeaderWritten(l, r.header);
    forall i ensures ItemRequests(l).enc(i).Written? <==> FitsItemRequest(l, i) {
      ItemRequestWritten(l, i);
    }
    ListWritten(l, ItemRequests(l), (i: ItemRequest) => FitsItemRequest(l, i), r.items);
  }

  lemma PublishRequestWritten(l: Bounds, r: PublishRequest)
    ensures EncPublishRequest(l, r).Written? <==> FitsRequestHeader(l, r.header) && |r.acknowledgements| <= l.maxArrayLength
  {
    hide EncRequestHeader, FitsRequestHeader, EncNodeIdFlags, FitsNode, EncList;
    NodeWritten(l, Numeric(0, 826), 0);
    Known(l, 826);
    RequestHeaderWritten(l, r.header);
    ListWritten(l, Acknowledgements(l), (a: Acknowledgement) => true, r.acknowledgements);
  }

  /** A message with data: its notifications fit, and so does the body they make, as a message and as a ByteString. */
  ghost predicate FitsMessage(l: Bounds, m: NotificationMessage) {
    m.hasData ==>
      && FitsList(l, (n: ItemNotification) => FitsDataValue(l, n.value), m.notifications)
      && Size(EncChanges(l, m.notifications)) <= l.maxMessageBytes && Size(EncChanges(l, m.notifications)) <= l.maxByteStringBytes
  }

  lemma ChangesWritten(l: Bounds, xs: seq<ItemNotification>)
    ensures EncChanges(l, xs).Written? <==> FitsList(l, (n: ItemNotification) => FitsDataValue(l, n.value), xs)
  {
    hide EncU32, EncDataValue, FitsDataValue, EncList, FitsList, Readable;
    forall n ensures ItemNotifications(l).enc(n).Written? <==> FitsDataValue(l, n.value) {
      DataValueWritten(l, n.value);
    }
    ListWritten(l, ItemNotifications(l), (n: ItemNotification) => FitsDataValue(l, n.value), xs);
  }

  lemma NotificationMessageWritten(l: Bounds, m: NotificationMessage)
    ensures EncNotificationMessage(l, m).Written? <==> FitsMessage(l, m)
  {
    hide EncU32, EncDateTime, EncExtensionObject, EncChanges, FitsList;
    ChangesWritten(l, m.notifications);
    var body := EncChanges(l, m.notifications);
    if body.Written? {
      ObjectWritten(l, ExtensionObject(DATA_CHANGE, 1, body.data));
    }
  }

  lemma PublishResponseWritten(l: Bounds, r: PublishResponse)
    ensures EncPublishResponse(l, r).Written?
      <==> && FitsResponseHeader(l, r.header) && |r.available| <= l.maxArrayLength && FitsMessage(l, r.message)
           && |r.results| <= l.maxArrayLength && FitsList(l, (d: DiagnosticInfo) => FitsDiagnostic(l, d), r.diagnostics)
  {
    hide EncResponseHeader, FitsResponseHeader, EncNodeIdFlags, FitsNode, EncU32, EncList, EncNotificationMessage, FitsMessage, EncDiagnosticInfo, FitsDiagnostic;
    NodeWritten(l, Numeric(0, 829), 0);
    Known(l, 829);
    ResponseHeaderWritten(l, r.header);
    NotificationMessageWritten(l, r.message);
    NumbersWritten(l, r.available);
    NumbersWritten(l, r.results);
    forall d ensures Diagnostics(l).enc(d).Written? <==> FitsDiagnostic(l, d) {
      DiagnosticWritten(l, d);
    }
    ListWritten(l, Diagnostics(l), (d: DiagnosticInfo) => FitsDiagnostic(l, d), r.diagnostics);
  }

  lemma NumbersWritten(l: Bounds, xs: seq<u32>)
    ensures EncList(l, Numbers(l), xs).Written? <==> |xs| <= l.maxArrayLength
  {
    hide EncList;
    ListWritten(l, Numbers(l), (n: u32) => true, xs);
  }

  lemma RepublishResponseWritten(l: Bounds, r: RepublishResponse)
    ensures EncRepublishResponse(l, r).Written? <==> FitsResponseHeader(l, r.header) && FitsMessage(l, r.message)
  {
    hide EncResponseHeader, FitsResponseHeader, EncNodeIdFlags, FitsNode, EncNotificationMessage, FitsMessage;
    NodeWritten(l, Numeric(0, 835), 0);
    Known(l, 835);
    ResponseHeaderWritten(l, r.header);
    NotificationMessageWritten(l, r.message);
  }
}
