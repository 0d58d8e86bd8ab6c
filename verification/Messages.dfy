/**
 * Whole requests and responses (nodeid.go, browse.go, readwrite.go,
 * subscription.go): the headers, the arrays with their admission floors, and the
 * DataChangeNotification nested in an ExtensionObject.
 *
 * A writer and a reader are two definitions, each in the order its source
 * function has; the lemma beside them proves that they agree.
 */
module Messages {
  import opened Prelude
  import opened Ints
  import opened Wire
  import opened NodeIds
  import opened Variants

  type Bounds = l: Limits | l.Valid() witness Limits(1, 1, 1, 1, 100)

  lemma Split(buf: bytes, off: nat, a: Enc, b: Enc)
    requires Stands(buf, off, a.Then(b))
    ensures Stands(buf, off, a) && Stands(buf, off + Size(a), b) && Size(a.Then(b)) == Size(a) + Size(b)
  {
    AtConcat(buf, off, a.data, b.data);
  }

  // ---------------------------------------------------------------- lists

  /** An array element: the values that can make the trip, writer, reader, what the trip makes of one, and the floor the reader admits by. */
  datatype Format<!T> = Format(ok: T -> bool, enc: T -> Enc, read: (bytes, nat) -> Parsed<T>, canon: T -> T, floor: nat)

  ghost predicate Lawful<T(!new)>(f: Format<T>) {
    Codec(f.ok, f.enc, f.read, f.canon, f.floor)
  }

  function EncList<T>(l: Bounds, f: Format<T>, xs: seq<T>): Enc {
    EncArray(l, f.enc, xs)
  }

  function ReadList<T>(l: Bounds, f: Format<T>, buf: bytes, off: nat): Parsed<seq<T>> {
    ReadArray(l, f.read, f.floor, buf, off)
  }

  lemma ListRoundTrip<T(!new)>(l: Bounds, f: Format<T>, xs: seq<T>, buf: bytes, off: nat)
    requires Lawful(f) && Every(f.ok, xs) && Stands(buf, off, EncList(l, f, xs))
    ensures ReadList(l, f, buf, off) == Ok(MapSeq(f.canon, xs), off + Size(EncList(l, f, xs)))
  {
    ArrayRoundTrip(l, f.ok, f.enc, f.read, f.canon, f.floor, xs, buf, off);
  }

  lemma {:induction false} MapSeqIdentity<T(!new)>(f: T -> T, xs: seq<T>)
    requires forall x :: f(x) == x
    ensures MapSeq(f, xs) == xs
  {
    if xs != [] {
      MapSeqIdentity(f, xs[1..]);
    }
  }

  lemma {:induction false} EveryTrue<T(!new)>(ok: T -> bool, xs: seq<T>)
    requires forall x :: ok(x)
    ensures Every(ok, xs)
  {
    if xs != [] {
      EveryTrue(ok, xs[1..]);
    }
  }

  function Texts(l: Bounds): Format<bytes> {
    Format(x => true, x => EncString(l, x), (buf, off) => ReadText(l, buf, off), x => x, 4)
  }

  lemma TextsRoundTrip(l: Bounds, buf: bytes, off: nat, xs: seq<bytes>)
    requires Stands(buf, off, EncList(l, Texts(l), xs))
    ensures ReadList(l, Texts(l), buf, off) == Ok(xs, off + Size(EncList(l, Texts(l), xs)))
  {
    TextsLawful(l);
    EveryTrue(Texts(l).ok, xs);
    MapSeqIdentity(Texts(l).canon, xs);
    hide Texts;
    ListRoundTrip(l, Texts(l), xs, buf, off);
  }

  lemma TextsLawful(l: Bounds)
    ensures Lawful(Texts(l))
  {
    hide At, EncString, ReadText;
    forall x, buf, off: nat | Texts(l).ok(x) && Stands(buf, off, Texts(l).enc(x))
      ensures Texts(l).read(buf, off) == Ok(Texts(l).canon(x), off + Size(Texts(l).enc(x)))
    {
      TextRoundTrip(l, buf, off, x);
    }
  }

  function Numbers(l: Bounds): Format<u32> {
    Format(x => true, x => EncU32(x), (buf, off) => ReadU32(buf, off), x => x, 4)
  }

  lemma NumbersRoundTrip(l: Bounds, buf: bytes, off: nat, xs: seq<u32>)
    requires Stands(buf, off, EncList(l, Numbers(l), xs))
    ensures ReadList(l, Numbers(l), buf, off) == Ok(xs, off + Size(EncList(l, Numbers(l), xs)))
  {
    NumbersLawful(l);
    EveryTrue(Numbers(l).ok, xs);
    MapSeqIdentity(Numbers(l).canon, xs);
    hide Numbers;
    ListRoundTrip(l, Numbers(l), xs, buf, off);
  }

  lemma NumbersLawful(l: Bounds)
    ensures Lawful(Numbers(l))
  {
    hide At, EncU32, ReadU32;
    forall x, buf, off: nat | Numbers(l).ok(x) && Stands(buf, off, Numbers(l).enc(x))
      ensures Numbers(l).read(buf, off) == Ok(Numbers(l).canon(x), off + Size(Numbers(l).enc(x)))
    {
      U32RoundTrip(buf, off, x);
    }
  }

  function Diagnostics(l: Bounds): Format<DiagnosticInfo> {
    Format(x => true, x => EncDiagnosticInfo(l, x), (buf, off) => ReadDiagnosticInfo(l, buf, off), x => x, 1)
  }

  lemma DiagnosticsRoundTrip(l: Bounds, buf: bytes, off: nat, xs: seq<DiagnosticInfo>)
    requires Stands(buf, off, EncList(l, Diagnostics(l), xs))
    ensures ReadList(l, Diagnostics(l), buf, off) == Ok(xs, off + Size(EncList(l, Diagnostics(l), xs)))
  {
    DiagnosticsLawful(l);
    EveryTrue(Diagnostics(l).ok, xs);
    MapSeqIdentity(Diagnostics(l).canon, xs);
    hide Diagnostics;
    ListRoundTrip(l, Diagnostics(l), xs, buf, off);
  }

  lemma DiagnosticsLawful(l: Bounds)
    ensures Lawful(Diagnostics(l))
  {
    hide At, EncDiagnosticInfo, ReadDiagnosticInfo;
    forall x, buf, off: nat | Diagnostics(l).ok(x) && Stands(buf, off, Diagnostics(l).enc(x))
      ensures Diagnostics(l).read(buf, off) == Ok(Diagnostics(l).canon(x), off + Size(Diagnostics(l).enc(x)))
    {
      DiagnosticInfoRoundTrip(l, buf, off, x);
    }
  }

  // ---------------------------------------------------------------- headers

  /** A message starts with the numeric identifier of its encoding, which the listener dispatches on. */
  function ReadServiceType(l: Bounds, id: u32, buf: bytes, off: nat): Parsed<()> {
    var (n, next) :- ReadNodeId(l, buf, off);
    if n == Numeric(0, id) then Ok((), next) else Err(DecodingError)
  }

  lemma ServiceTypeRoundTrip(l: Bounds, buf: bytes, off: nat, id: u32)
    requires Stands(buf, off, EncNodeId(l, Numeric(0, id)))
    ensures ReadServiceType(l, id, buf, off) == Ok((), off + Size(EncNodeId(l, Numeric(0, id))))
  {
    NodeIdRoundTrip(l, buf, off, Numeric(0, id));
  }

  datatype RequestHeader = RequestHeader(token: NodeId, timestamp: Instant, handle: u32, diagnostics: u32, auditEntry: bytes, timeoutHint: u32, additional: ExtensionObject)

  function EncRequestHeader(l: Bounds, h: RequestHeader): Enc {
    EncNodeId(l, h.token).Then(EncDateTime(h.timestamp)).Then(EncU32(h.handle)).Then(EncU32(h.diagnostics))
      .Then(EncString(l, h.auditEntry)).Then(EncU32(h.timeoutHint)).Then(EncExtensionObject(l, h.additional))
  }

  function ReadRequestHeader(l: Bounds, buf: bytes, off: nat): Parsed<RequestHeader> {
    var (token, o1) :- ReadNodeId(l, buf, off);
    var (timestamp, o2) :- ReadDateTime(buf, o1);
    var (handle, o3) :- ReadU32(buf, o2);
    var (diagnostics, o4) :- ReadU32(buf, o3);
    var (auditEntry, o5) :- ReadText(l, buf, o4);
    var (timeoutHint, o6) :- ReadU32(buf, o5);
    var (additional, o7) :- ReadExtensionObject(l, buf, o6);
    Ok(RequestHeader(token, timestamp, handle, diagnostics, auditEntry, timeoutHint, additional), o7)
  }

  function CanonRequestHeader(h: RequestHeader): RequestHeader {
    h.(timestamp := CanonTime(h.timestamp), additional := CanonObject(h.additional))
  }

  lemma RequestHeaderRoundTrip(l: Bounds, buf: bytes, off: nat, h: RequestHeader)
    requires Stands(buf, off, EncRequestHeader(l, h))
    ensures ReadRequestHeader(l, buf, off) == Ok(CanonRequestHeader(h), off + Size(EncRequestHeader(l, h)))
  {
    hide Enc.Then, At, EncNodeId, ReadNodeId, EncDateTime, ReadDateTime, CanonTime, EncU32, ReadU32, EncString, ReadText,
      EncExtensionObject, ReadExtensionObject, CanonObject;
    var p1 := EncNodeId(l, h.token);
    var p2 := p1.Then(EncDateTime(h.timestamp));
    var p3 := p2.Then(EncU32(h.handle));
    var p4 := p3.Then(EncU32(h.diagnostics));
    var p5 := p4.Then(EncString(l, h.auditEntry));
    var p6 := p5.Then(EncU32(h.timeoutHint));
    Split(buf, off, p6, EncExtensionObject(l, h.additional));
    Split(buf, off, p5, EncU32(h.timeoutHint));
    Split(buf, off, p4, EncString(l, h.auditEntry));
    Split(buf, off, p3, EncU32(h.diagnostics));
    Split(buf, off, p2, EncU32(h.handle));
    Split(buf, off, p1, EncDateTime(h.timestamp));
    NodeIdRoundTrip(l, buf, off, h.token);
    DateTimeWireRoundTrip(buf, off + Size(p1), h.timestamp);
    U32RoundTrip(buf, off + Size(p2), h.handle);
    U32RoundTrip(buf, off + Size(p3), h.diagnostics);
    TextRoundTrip(l, buf, off + Size(p4), h.auditEntry);
    U32RoundTrip(buf, off + Size(p5), h.timeoutHint);
    ExtensionObjectRoundTrip(l, buf, off + Size(p6), h.additional);
  }

  /** The string table, which may be null. */
  function EncStringTable(l: Bounds, t: Option<seq<bytes>>): Enc {
    if t.None? then EncI32(-1) else EncList(l, Texts(l), t.value)
  }

  function ReadStringTable(l: Bounds, buf: bytes, off: nat): Parsed<Option<seq<bytes>>> {
    var (n, next) :- ReadArrayLength(l, buf, off, 4);
    if n.None? then Ok(None, next)
    else
      var (xs, after) :- ReadAll(Texts(l).read, n.value, buf, next);
      Ok(Some(xs), after)
  }

  lemma StringTableRoundTrip(l: Bounds, buf: bytes, off: nat, t: Option<seq<bytes>>)
    requires Stands(buf, off, EncStringTable(l, t))
    ensures ReadStringTable(l, buf, off) == Ok(t, off + Size(EncStringTable(l, t)))
  {
    if t.None? {
      NullRoundTrip(buf, off, l.maxArrayLength);
    } else {
      var xs := t.value;
      TextsRoundTrip(l, buf, off, xs);
      Split(buf, off, EncArrayLength(l, |xs|), EncAll(Texts(l).enc, xs));
      I32RoundTrip(buf, off, |xs|);
    }
  }

  datatype ResponseHeader = ResponseHeader(timestamp: Instant, handle: u32, result: u32, diagnostics: DiagnosticInfo, strings: Option<seq<bytes>>, additional: ExtensionObject)

  function EncResponseHeader(l: Bounds, h: ResponseHeader): Enc {
    EncDateTime(h.timestamp).Then(EncU32(h.handle)).Then(EncU32(h.result)).Then(EncDiagnosticInfo(l, h.diagnostics))
      .Then(EncStringTable(l, h.strings)).Then(EncExtensionObject(l, h.additional))
  }

  function ReadResponseHeader(l: Bounds, buf: bytes, off: nat): Parsed<ResponseHeader> {
    var (timestamp, o1) :- ReadDateTime(buf, off);
    var (handle, o2) :- ReadU32(buf, o1);
    var (result, o3) :- ReadU32(buf, o2);
    var (diagnostics, o4) :- ReadDiagnosticInfo(l, buf, o3);
    var (strings, o5) :- ReadStringTable(l, buf, o4);
    var (additional, o6) :- ReadExtensionObject(l, buf, o5);
    Ok(ResponseHeader(timestamp, handle, result, diagnostics, strings, additional), o6)
  }

  function CanonResponseHeader(h: ResponseHeader): ResponseHeader {
    h.(timestamp := CanonTime(h.timestamp), additional := CanonObject(h.additional))
  }

  lemma ResponseHeaderRoundTrip(l: Bounds, buf: bytes, off: nat, h: ResponseHeader)
    requires Stands(buf, off, EncResponseHeader(l, h))
    ensures ReadResponseHeader(l, buf, off) == Ok(CanonResponseHeader(h), off + Size(EncResponseHeader(l, h)))
  {
    hide Enc.Then, At, EncDateTime, ReadDateTime, CanonTime, EncU32, ReadU32, EncDiagnosticInfo, ReadDiagnosticInfo, EncStringTable,
      ReadStringTable, EncExtensionObject, ReadExtensionObject, CanonObject;
    var p1 := EncDateTime(h.timestamp);
    var p2 := p1.Then(EncU32(h.handle));
    var p3 := p2.Then(EncU32(h.result));
    var p4 := p3.Then(EncDiagnosticInfo(l, h.diagnostics));
    var p5 := p4.Then(EncStringTable(l, h.strings));
    Split(buf, off, p5, EncExtensionObject(l, h.additional));
    Split(buf, off, p4, EncStringTable(l, h.strings));
    Split(buf, off, p3, EncDiagnosticInfo(l, h.diagnostics));
    Split(buf, off, p2, EncU32(h.result));
    Split(buf, off, p1, EncU32(h.handle));
    DateTimeWireRoundTrip(buf, off, h.timestamp);
    U32RoundTrip(buf, off + Size(p1), h.handle);
    U32RoundTrip(buf, off + Size(p2), h.result);
    DiagnosticInfoRoundTrip(l, buf, off + Size(p3), h.diagnostics);
    StringTableRoundTrip(l, buf, off + Size(p4), h.strings);
    ExtensionObjectRoundTrip(l, buf, off + Size(p5), h.additional);
  }

  // ---------------------------------------------------------------- Browse

  datatype ViewDescription = ViewDescription(view: NodeId, timestamp: Instant, version: u32)

  function EncViewDescription(l: Bounds, w: ViewDescription): Enc {
    EncNodeId(l, w.view).Then(EncDateTime(w.timestamp)).Then(EncU32(w.version))
  }

  function ReadViewDescription(l: Bounds, buf: bytes, off: nat): Parsed<ViewDescription> {
    var (view, o1) :- ReadNodeId(l, buf, off);
    var (timestamp, o2) :- ReadDateTime(buf, o1);
    var (version, o3) :- ReadU32(buf, o2);
    Ok(ViewDescription(view, timestamp, version), o3)
  }

  function CanonViewDescription(w: ViewDescription): ViewDescription {
    w.(timestamp := CanonTime(w.timestamp))
  }

  lemma ViewDescriptionRoundTrip(l: Bounds, buf: bytes, off: nat, w: ViewDescription)
    requires Stands(buf, off, EncViewDescription(l, w))
    ensures ReadViewDescription(l, buf, off) == Ok(CanonViewDescription(w), off + Size(EncViewDescription(l, w)))
  {
    hide Enc.Then, At, EncNodeId, ReadNodeId, EncDateTime, ReadDateTime, CanonTime, EncU32, ReadU32;
    var p1 := EncNodeId(l, w.view);
    var p2 := p1.Then(EncDateTime(w.timestamp));
    Split(buf, off, p2, EncU32(w.version));
    Split(buf, off, p1, EncDateTime(w.timestamp));
    NodeIdRoundTrip(l, buf, off, w.view);
    DateTimeWireRoundTrip(buf, off + Size(p1), w.timestamp);
    U32RoundTrip(buf, off + Size(p2), w.version);
  }

  datatype BrowseDescription = BrowseDescription(node: NodeId, direction: i32, referenceType: NodeId, subtypes: bool, classMask: u32, resultMask: u32)

  function EncBrowseDescription(l: Bounds, b: BrowseDescription): (e: Enc)
    ensures e.Written? ==> 17 <= |e.data|
  {
    EncNodeId(l, b.node).Then(EncI32(b.direction)).Then(EncNodeId(l, b.referenceType)).Then(EncBool(b.subtypes))
      .Then(EncU32(b.classMask)).Then(EncU32(b.resultMask))
  }

  function ReadBrowseDescription(l: Bounds, buf: bytes, off: nat): Parsed<BrowseDescription> {
    var (node, o1) :- ReadNodeId(l, buf, off);
    var (direction, o2) :- ReadI32(buf, o1);
    var (referenceType, o3) :- ReadNodeId(l, buf, o2);
    var (subtypes, o4) :- ReadBool(buf, o3);
    var (classMask, o5) :- ReadU32(buf, o4);
    var (resultMask, o6) :- ReadU32(buf, o5);
    Ok(BrowseDescription(node, direction, referenceType, subtypes, classMask, resultMask), o6)
  }

  lemma BrowseDescriptionRoundTrip(l: Bounds, buf: bytes, off: nat, b: BrowseDescription)
    requires Stands(buf, off, EncBrowseDescription(l, b))
    ensures ReadBrowseDescription(l, buf, off) == Ok(b, off + Size(EncBrowseDescription(l, b)))
  {
    hide Enc.Then, At, EncNodeId, ReadNodeId, EncI32, ReadI32, EncBool, ReadBool, EncU32, ReadU32;
    var p1 := EncNodeId(l, b.node);
    var p2 := p1.Then(EncI32(b.direction));
    var p3 := p2.Then(EncNodeId(l, b.referenceType));
    var p4 := p3.Then(EncBool(b.subtypes));
    var p5 := p4.Then(EncU32(b.classMask));
    Split(buf, off, p5, EncU32(b.resultMask));
    Split(buf, off, p4, EncU32(b.classMask));
    Split(buf, off, p3, EncBool(b.subtypes));
    Split(buf, off, p2, EncNodeId(l, b.referenceType));
    Split(buf, off, p1, EncI32(b.direction));
    NodeIdRoundTrip(l, buf, off, b.node);
    I32RoundTrip(buf, off + Size(p1), b.direction);
    NodeIdRoundTrip(l, buf, off + Size(p2), b.referenceType);
    BoolRoundTrip(buf, off + Size(p3), b.subtypes);
    U32RoundTrip(buf, off + Size(p4), b.classMask);
    U32RoundTrip(buf, off + Size(p5), b.resultMask);
  }

  function BrowseDescriptions(l: Bounds): Format<BrowseDescription> {
    Format(x => true, x => EncBrowseDescription(l, x), (buf, off) => ReadBrowseDescription(l, buf, off), x => x, 13)
  }

  lemma BrowseDescriptionsRoundTrip(l: Bounds, buf: bytes, off: nat, xs: seq<BrowseDescription>)
    requires Stands(buf, off, EncList(l, BrowseDescriptions(l), xs))
    ensures ReadList(l, BrowseDescriptions(l), buf, off) == Ok(xs, off + Size(EncList(l, BrowseDescriptions(l), xs)))
  {
    BrowseDescriptionsLawful(l);
    EveryTrue(BrowseDescriptions(l).ok, xs);
    MapSeqIdentity(BrowseDescriptions(l).canon, xs);
    hide BrowseDescriptions;
    ListRoundTrip(l, BrowseDescriptions(l), xs, buf, off);
  }

  lemma BrowseDescriptionsLawful(l: Bounds)
    ensures Lawful(BrowseDescriptions(l))
  {
    hide At, EncBrowseDescription, ReadBrowseDescription;
    forall x, buf, off: nat | BrowseDescriptions(l).ok(x) && Stands(buf, off, BrowseDescriptions(l).enc(x))
      ensures BrowseDescriptions(l).read(buf, off) == Ok(BrowseDescriptions(l).canon(x), off + Size(BrowseDescriptions(l).enc(x)))
    {
      BrowseDescriptionRoundTrip(l, buf, off, x);
    }
  }

  datatype BrowseRequest = BrowseRequest(header: RequestHeader, view: ViewDescription, maxReferences: u32, nodes: seq<BrowseDescription>)

  function EncBrowseRequest(l: Bounds, r: BrowseRequest): Enc {
    EncNodeId(l, Numeric(0, 527)).Then(EncRequestHeader(l, r.header)).Then(EncViewDescription(l, r.view)).Then(EncU32(r.maxReferences))
      .Then(EncList(l, BrowseDescriptions(l), r.nodes))
  }

  function ReadBrowseRequest(l: Bounds, buf: bytes, off: nat): Parsed<BrowseRequest> {
    var (_, o0) :- ReadServiceType(l, 527, buf, off);
    var (header, o1) :- ReadRequestHeader(l, buf, o0);
    var (view, o2) :- ReadViewDescription(l, buf, o1);
    var (maxReferences, o3) :- ReadU32(buf, o2);
    var (nodes, o4) :- ReadList(l, BrowseDescriptions(l), buf, o3);
    Ok(BrowseRequest(header, view, maxReferences, nodes), o4)
  }

  function CanonBrowseRequest(r: BrowseRequest): BrowseRequest {
    r.(header := CanonRequestHeader(r.header), view := CanonViewDescription(r.view))
  }

  lemma BrowseRequestRoundTrip(l: Bounds, buf: bytes, off: nat, r: BrowseRequest)
    requires Stands(buf, off, EncBrowseRequest(l, r))
    ensures ReadBrowseRequest(l, buf, off) == Ok(CanonBrowseRequest(r), off + Size(EncBrowseRequest(l, r)))
  {
    hide Enc.Then, At, EncRequestHeader, ReadRequestHeader, CanonRequestHeader, EncViewDescription, ReadViewDescription,
      CanonViewDescription, EncU32, ReadU32, EncList, ReadList, BrowseDescriptions, EncNodeId, ReadServiceType;
    var p1 := EncNodeId(l, Numeric(0, 527));
    var p2 := p1.Then(EncRequestHeader(l, r.header));
    var p3 := p2.Then(EncViewDescription(l, r.view));
    var p4 := p3.Then(EncU32(r.maxReferences));
    Split(buf, off, p4, EncList(l, BrowseDescriptions(l), r.nodes));
    Split(buf, off, p3, EncU32(r.maxReferences));
    Split(buf, off, p2, EncViewDescription(l, r.view));
    Split(buf, off, p1, EncRequestHeader(l, r.header));
    ServiceTypeRoundTrip(l, buf, off, 527);
    RequestHeaderRoundTrip(l, buf, off + Size(p1), r.header);
    ViewDescriptionRoundTrip(l, buf, off + Size(p2), r.view);
    U32RoundTrip(buf, off + Size(p3), r.maxReferences);
    BrowseDescriptionsRoundTrip(l, buf, off + Size(p4), r.nodes);
  }

  // ---------------------------------------------------------------- Read and Write

  datatype ReadValueId = ReadValueId(node: NodeId, attribute: u32, indexRange: bytes, encoding: QualifiedName)

  function EncReadValueId(l: Bounds, v: ReadValueId): (e: Enc)
    ensures e.Written? ==> 16 <= |e.data|
  {
    EncNodeId(l, v.node).Then(EncU32(v.attribute)).Then(EncOptionalText(l, v.indexRange)).Then(EncQualifiedName(l, v.encoding))
  }

  function ReadReadValueId(l: Bounds, buf: bytes, off: nat): Parsed<ReadValueId> {
    var (node, o1) :- ReadNodeId(l, buf, off);
    var (attribute, o2) :- ReadU32(buf, o1);
    var (indexRange, o3) :- ReadText(l, buf, o2);
    var (encoding, o4) :- ReadQualifiedName(l, buf, o3);
    Ok(ReadValueId(node, attribute, indexRange, encoding), o4)
  }

  lemma ReadValueIdRoundTrip(l: Bounds, buf: bytes, off: nat, v: ReadValueId)
    requires Stands(buf, off, EncReadValueId(l, v))
    ensures ReadReadValueId(l, buf, off) == Ok(v, off + Size(EncReadValueId(l, v)))
  {
    hide Enc.Then, At, EncNodeId, ReadNodeId, EncU32, ReadU32, EncOptionalText, ReadText, EncQualifiedName, ReadQualifiedName;
    var p1 := EncNodeId(l, v.node);
    var p2 := p1.Then(EncU32(v.attribute));
    var p3 := p2.Then(EncOptionalText(l, v.indexRange));
    Split(buf, off, p3, EncQualifiedName(l, v.encoding));
    Split(buf, off, p2, EncOptionalText(l, v.indexRange));
    Split(buf, off, p1, EncU32(v.attribute));
    NodeIdRoundTrip(l, buf, off, v.node);
    U32RoundTrip(buf, off + Size(p1), v.attribute);
    OptionalTextRoundTrip(l, buf, off + Size(p2), v.indexRange);
    QualifiedNameRoundTrip(l, buf, off + Size(p3), v.encoding);
  }

  function ReadValueIds(l: Bounds): Format<ReadValueId> {
    Format(x => true, x => EncReadValueId(l, x), (buf, off) => ReadReadValueId(l, buf, off), x => x, 12)
  }

  lemma ReadValueIdsRoundTrip(l: Bounds, buf: bytes, off: nat, xs: seq<ReadValueId>)
    requires Stands(buf, off, EncList(l, ReadValueIds(l), xs))
    ensures ReadList(l, ReadValueIds(l), buf, off) == Ok(xs, off + Size(EncList(l, ReadValueIds(l), xs)))
  {
    ReadValueIdsLawful(l);
    EveryTrue(ReadValueIds(l).ok, xs);
    MapSeqIdentity(ReadValueIds(l).canon, xs);
    hide ReadValueIds;
    ListRoundTrip(l, ReadValueIds(l), xs, buf, off);
  }

  lemma ReadValueIdsLawful(l: Bounds)
    ensures Lawful(ReadValueIds(l))
  {
    hide At, EncReadValueId, ReadReadValueId;
    forall x, buf, off: nat | ReadValueIds(l).ok(x) && Stands(buf, off, ReadValueIds(l).enc(x))
      ensures ReadValueIds(l).read(buf, off) == Ok(ReadValueIds(l).canon(x), off + Size(ReadValueIds(l).enc(x)))
    {
      ReadValueIdRoundTrip(l, buf, off, x);
    }
  }

  datatype ReadRequest = ReadRequest(header: RequestHeader, maxAge: u64, timestamps: i32, nodes: seq<ReadValueId>)

  function EncReadRequest(l: Bounds, r: ReadRequest): Enc {
    EncNodeId(l, Numeric(0, 631)).Then(EncRequestHeader(l, r.header)).Then(EncU64(Canon64(r.maxAge))).Then(EncI32(r.timestamps))
      .Then(EncList(l, ReadValueIds(l), r.nodes))
  }

  function ReadReadRequest(l: Bounds, buf: bytes, off: nat): Parsed<ReadRequest> {
    var (_, o0) :- ReadServiceType(l, 631, buf, off);
    var (header, o1) :- ReadRequestHeader(l, buf, o0);
    var (maxAge, o2) :- ReadU64(buf, o1);
    var (timestamps, o3) :- ReadI32(buf, o2);
    var (nodes, o4) :- ReadList(l, ReadValueIds(l), buf, o3);
    Ok(ReadRequest(header, maxAge, timestamps, nodes), o4)
  }

  function CanonReadRequest(r: ReadRequest): ReadRequest {
    r.(header := CanonRequestHeader(r.header), maxAge := Canon64(r.maxAge))
  }

  lemma ReadRequestRoundTrip(l: Bounds, buf: bytes, off: nat, r: ReadRequest)
    requires Stands(buf, off, EncReadRequest(l, r))
    ensures ReadReadRequest(l, buf, off) == Ok(CanonReadRequest(r), off + Size(EncReadRequest(l, r)))
  {
    hide Enc.Then, At, EncRequestHeader, ReadRequestHeader, CanonRequestHeader, EncU64, ReadU64, Canon64, EncI32, ReadI32, EncList,
      ReadList, ReadValueIds, EncNodeId, ReadServiceType;
    var p1 := EncNodeId(l, Numeric(0, 631));
    var p2 := p1.Then(EncRequestHeader(l, r.header));
    var p3 := p2.Then(EncU64(Canon64(r.maxAge)));
    var p4 := p3.Then(EncI32(r.timestamps));
    Split(buf, off, p4, EncList(l, ReadValueIds(l), r.nodes));
    Split(buf, off, p3, EncI32(r.timestamps));
    Split(buf, off, p2, EncU64(Canon64(r.maxAge)));
    Split(buf, off, p1, EncRequestHeader(l, r.header));
    ServiceTypeRoundTrip(l, buf, off, 631);
    RequestHeaderRoundTrip(l, buf, off + Size(p1), r.header);
    U64RoundTrip(buf, off + Size(p2), Canon64(r.maxAge));
    I32RoundTrip(buf, off + Size(p3), r.timestamps);
    ReadValueIdsRoundTrip(l, buf, off + Size(p4), r.nodes);
  }

  datatype WriteValue = WriteValue(node: NodeId, attribute: u32, indexRange: bytes, value: DataValue)

  function EncWriteValue(l: Bounds, v: WriteValue): (e: Enc)
    ensures e.Written? ==> 11 <= |e.data|
  {
    EncNodeId(l, v.node).Then(EncU32(v.attribute)).Then(EncOptionalText(l, v.indexRange)).Then(EncDataValue(l, v.value))
  }

  function ReadWriteValue(l: Bounds, buf: bytes, off: nat): Parsed<WriteValue> {
    var (node, o1) :- ReadNodeId(l, buf, off);
    var (attribute, o2) :- ReadU32(buf, o1);
    var (indexRange, o3) :- ReadText(l, buf, o2);
    var (value, o4) :- ReadDataValue(l, buf, o3);
    Ok(WriteValue(node, attribute, indexRange, value), o4)
  }

  function CanonWriteValue(v: WriteValue): WriteValue {
    v.(value := CanonDataValue(v.value))
  }

  lemma WriteValueRoundTrip(l: Bounds, buf: bytes, off: nat, v: WriteValue)
    requires Readable(l, v.value.value) && Stands(buf, off, EncWriteValue(l, v))
    ensures ReadWriteValue(l, buf, off) == Ok(CanonWriteValue(v), off + Size(EncWriteValue(l, v)))
  {
    hide Enc.Then, At, EncNodeId, ReadNodeId, EncU32, ReadU32, EncOptionalText, ReadText, EncDataValue, ReadDataValue, CanonDataValue,
      Readable;
    var p1 := EncNodeId(l, v.node);
    var p2 := p1.Then(EncU32(v.attribute));
    var p3 := p2.Then(EncOptionalText(l, v.indexRange));
    Split(buf, off, p3, EncDataValue(l, v.value));
    Split(buf, off, p2, EncOptionalText(l, v.indexRange));
    Split(buf, off, p1, EncU32(v.attribute));
    NodeIdRoundTrip(l, buf, off, v.node);
    U32RoundTrip(buf, off + Size(p1), v.attribute);
    OptionalTextRoundTrip(l, buf, off + Size(p2), v.indexRange);
    DataValueRoundTrip(l, buf, off + Size(p3), v.value);
  }

  function WriteValues(l: Bounds): Format<WriteValue> {
    Format((x: WriteValue) => Readable(l, x.value.value), x => EncWriteValue(l, x), (buf, off) => ReadWriteValue(l, buf, off), x => CanonWriteValue(x), 10)
  }

  lemma WriteValuesRoundTrip(l: Bounds, buf: bytes, off: nat, xs: seq<WriteValue>)
    requires Every(WriteValues(l).ok, xs) && Stands(buf, off, EncList(l, WriteValues(l), xs))
    ensures ReadList(l, WriteValues(l), buf, off) == Ok(MapSeq(WriteValues(l).canon, xs), off + Size(EncList(l, WriteValues(l), xs)))
  {
    WriteValuesLawful(l);
    hide WriteValues;
    ListRoundTrip(l, WriteValues(l), xs, buf, off);
  }

  lemma WriteValuesLawful(l: Bounds)
    ensures Lawful(WriteValues(l))
  {
    hide At, EncWriteValue, ReadWriteValue, CanonWriteValue, Readable;
    forall x, buf, off: nat | WriteValues(l).ok(x) && Stands(buf, off, WriteValues(l).enc(x))
      ensures WriteValues(l).read(buf, off) == Ok(WriteValues(l).canon(x), off + Size(WriteValues(l).enc(x)))
    {
      WriteValueRoundTrip(l, buf, off, x);
    }
  }

  datatype WriteRequest = WriteRequest(header: RequestHeader, nodes: seq<WriteValue>)

  function EncWriteRequest(l: Bounds, r: WriteRequest): Enc {
    EncNodeId(l, Numeric(0, 673)).Then(EncRequestHeader(l, r.header)).Then(EncList(l, WriteValues(l), r.nodes))
  }

  function ReadWriteRequest(l: Bounds, buf: bytes, off: nat): Parsed<WriteRequest> {
    var (_, o0) :- ReadServiceType(l, 673, buf, off);
    var (header, o1) :- ReadRequestHeader(l, buf, o0);
    var (nodes, o2) :- ReadList(l, WriteValues(l), buf, o1);
    Ok(WriteRequest(header, nodes), o2)
  }

  function CanonWriteRequest(l: Bounds, r: WriteRequest): WriteRequest {
    r.(header := CanonRequestHeader(r.header), nodes := MapSeq(WriteValues(l).canon, r.nodes))
  }

  lemma WriteRequestRoundTrip(l: Bounds, buf: bytes, off: nat, r: WriteRequest)
    requires Every(WriteValues(l).ok, r.nodes) && Stands(buf, off, EncWriteRequest(l, r))
    ensures ReadWriteRequest(l, buf, off) == Ok(CanonWriteRequest(l, r), off + Size(EncWriteRequest(l, r)))
  {
    hide Enc.Then, At, EncRequestHeader, ReadRequestHeader, CanonRequestHeader, EncList, ReadList, WriteValues, MapSeq, EncNodeId,
      ReadServiceType;
    var p1 := EncNodeId(l, Numeric(0, 673));
    var p2 := p1.Then(EncRequestHeader(l, r.header));
    Split(buf, off, p2, EncList(l, WriteValues(l), r.nodes));
    Split(buf, off, p1, EncRequestHeader(l, r.header));
    ServiceTypeRoundTrip(l, buf, off, 673);
    RequestHeaderRoundTrip(l, buf, off + Size(p1), r.header);
    WriteValuesRoundTrip(l, buf, off + Size(p2), r.nodes);
  }

  // ---------------------------------------------------------------- CreateMonitoredItems

  datatype MonitoringParameters = MonitoringParameters(clientHandle: u32, samplingInterval: u64, filter: ExtensionObject, queueSize: u32, discardOldest: bool)

  function EncMonitoringParameters(l: Bounds, m: MonitoringParameters): (e: Enc)
    ensures e.Written? ==> 20 <= |e.data|
  {
    EncU32(m.clientHandle).Then(EncU64(Canon64(m.samplingInterval))).Then(EncExtensionObject(l, m.filter)).Then(EncU32(m.queueSize))
      .Then(EncBool(m.discardOldest))
  }

  function ReadMonitoringParameters(l: Bounds, buf: bytes, off: nat): Parsed<MonitoringParameters> {
    var (clientHandle, o1) :- ReadU32(buf, off);
    var (samplingInterval, o2) :- ReadU64(buf, o1);
    var (filter, o3) :- ReadExtensionObject(l, buf, o2);
    var (queueSize, o4) :- ReadU32(buf, o3);
    var (discardOldest, o5) :- ReadBool(buf, o4);
    Ok(MonitoringParameters(clientHandle, samplingInterval, filter, queueSize, discardOldest), o5)
  }

  function CanonMonitoringParameters(m: MonitoringParameters): MonitoringParameters {
    m.(samplingInterval := Canon64(m.samplingInterval), filter := CanonObject(m.filter))
  }

  lemma MonitoringParametersRoundTrip(l: Bounds, buf: bytes, off: nat, m: MonitoringParameters)
    requires Stands(buf, off, EncMonitoringParameters(l, m))
    ensures ReadMonitoringParameters(l, buf, off) == Ok(CanonMonitoringParameters(m), off + Size(EncMonitoringParameters(l, m)))
  {
    hide Enc.Then, At, EncU32, ReadU32, EncU64, ReadU64, Canon64, EncExtensionObject, ReadExtensionObject, CanonObject, EncBool, ReadBool;
    var p1 := EncU32(m.clientHandle);
    var p2 := p1.Then(EncU64(Canon64(m.samplingInterval)));
    var p3 := p2.Then(EncExtensionObject(l, m.filter));
    var p4 := p3.Then(EncU32(m.queueSize));
    Split(buf, off, p4, EncBool(m.discardOldest));
    Split(buf, off, p3, EncU32(m.queueSize));
    Split(buf, off, p2, EncExtensionObject(l, m.filter));
    Split(buf, off, p1, EncU64(Canon64(m.samplingInterval)));
    U32RoundTrip(buf, off, m.clientHandle);
    U64RoundTrip(buf, off + Size(p1), Canon64(m.samplingInterval));
    ExtensionObjectRoundTrip(l, buf, off + Size(p2), m.filter);
    U32RoundTrip(buf, off + Size(p3), m.queueSize);
    BoolRoundTrip(buf, off + Size(p4), m.discardOldest);
  }

  datatype ItemRequest = ItemRequest(item: ReadValueId, mode: i32, parameters: MonitoringParameters)

  function EncItemRequest(l: Bounds, i: ItemRequest): (e: Enc)
    ensures e.Written? ==> 40 <= |e.data|
  {
    EncReadValueId(l, i.item).Then(EncI32(i.mode)).Then(EncMonitoringParameters(l, i.parameters))
  }

  function ReadItemRequest(l: Bounds, buf: bytes, off: nat): Parsed<ItemRequest> {
    var (item, o1) :- ReadReadValueId(l, buf, off);
    var (mode, o2) :- ReadI32(buf, o1);
    var (parameters, o3) :- ReadMonitoringParameters(l, buf, o2);
    Ok(ItemRequest(item, mode, parameters), o3)
  }

  function CanonItemRequest(i: ItemRequest): ItemRequest {
    i.(parameters := CanonMonitoringParameters(i.parameters))
  }

  lemma ItemRequestRoundTrip(l: Bounds, buf: bytes, off: nat, i: ItemRequest)
    requires Stands(buf, off, EncItemRequest(l, i))
    ensures ReadItemRequest(l, buf, off) == Ok(CanonItemRequest(i), off + Size(EncItemRequest(l, i)))
  {
    hide Enc.Then, At, EncReadValueId, ReadReadValueId, EncI32, ReadI32, EncMonitoringParameters, ReadMonitoringParameters,
      CanonMonitoringParameters;
    var p1 := EncReadValueId(l, i.item);
    var p2 := p1.Then(EncI32(i.mode));
    Split(buf, off, p2, EncMonitoringParameters(l, i.parameters));
    Split(buf, off, p1, EncI32(i.mode));
    ReadValueIdRoundTrip(l, buf, off, i.item);
    I32RoundTrip(buf, off + Size(p1), i.mode);
    MonitoringParametersRoundTrip(l, buf, off + Size(p2), i.parameters);
  }

  function ItemRequests(l: Bounds): Format<ItemRequest> {
    Format(x => true, x => EncItemRequest(l, x), (buf, off) => ReadItemRequest(l, buf, off), x => CanonItemRequest(x), 30)
  }

  lemma ItemRequestsRoundTrip(l: Bounds, buf: bytes, off: nat, xs: seq<ItemRequest>)
    requires Stands(buf, off, EncList(l, ItemRequests(l), xs))
    ensures ReadList(l, ItemRequests(l), buf, off) == Ok(MapSeq(ItemRequests(l).canon, xs), off + Size(EncList(l, ItemRequests(l), xs)))
  {
    hide ItemRequests;
    ItemRequestsLawful(l);
    ItemRequestsOk(l, xs);
    ListRoundTrip(l, ItemRequests(l), xs, buf, off);
  }

  lemma ItemRequestsOk(l: Bounds, xs: seq<ItemRequest>)
    ensures Every(ItemRequests(l).ok, xs)
  {
    EveryTrue(ItemRequests(l).ok, xs);
  }

  lemma ItemRequestsLawful(l: Bounds)
    ensures Lawful(ItemRequests(l))
  {
    hide At, EncItemRequest, ReadItemRequest, CanonItemRequest;
    forall x, buf, off: nat | ItemRequests(l).ok(x) && Stands(buf, off, ItemRequests(l).enc(x))
      ensures ItemRequests(l).read(buf, off) == Ok(ItemRequests(l).canon(x), off + Size(ItemRequests(l).enc(x)))
    {
      ItemRequestRoundTrip(l, buf, off, x);
    }
  }

  datatype CreateMonitoredItemsRequest = CreateMonitoredItemsRequest(header: RequestHeader, subscription: u32, timestamps: i32, items: seq<ItemRequest>)

  function EncCreateMonitoredItemsRequest(l: Bounds, r: CreateMonitoredItemsRequest): Enc {
    EncNodeId(l, Numeric(0, 751)).Then(EncRequestHeader(l, r.header)).Then(EncU32(r.subscription)).Then(EncI32(r.timestamps))
      .Then(EncList(l, ItemRequests(l), r.items))
  }

  function ReadCreateMonitoredItemsRequest(l: Bounds, buf: bytes, off: nat): Parsed<CreateMonitoredItemsRequest> {
    var (_, o0) :- ReadServiceType(l, 751, buf, off);
    var (header, o1) :- ReadRequestHeader(l, buf, o0);
    var (subscription, o2) :- ReadU32(buf, o1);
    var (timestamps, o3) :- ReadI32(buf, o2);
    var (items, o4) :- ReadList(l, ItemRequests(l), buf, o3);
    Ok(CreateMonitoredItemsRequest(header, subscription, timestamps, items), o4)
  }

  function CanonCreateMonitoredItemsRequest(l: Bounds, r: CreateMonitoredItemsRequest): CreateMonitoredItemsRequest {
    r.(header := CanonRequestHeader(r.header), items := MapSeq(ItemRequests(l).canon, r.items))
  }

  lemma CreateMonitoredItemsRequestRoundTrip(l: Bounds, buf: bytes, off: nat, r: CreateMonitoredItemsRequest)
    requires Stands(buf, off, EncCreateMonitoredItemsRequest(l, r))
    ensures ReadCreateMonitoredItemsRequest(l, buf, off) == Ok(CanonCreateMonitoredItemsRequest(l, r), off + Size(EncCreateMonitoredItemsRequest(l, r)))
  {
    hide Enc.Then, At, EncRequestHeader, ReadRequestHeader, CanonRequestHeader, EncU32, ReadU32, EncI32, ReadI32, EncList, ReadList,
      ItemRequests, MapSeq, EncNodeId, ReadServiceType;
    var p1 := EncNodeId(l, Numeric(0, 751));
    var p2 := p1.Then(EncRequestHeader(l, r.header));
    var p3 := p2.Then(EncU32(r.subscription));
    var p4 := p3.Then(EncI32(r.timestamps));
    Split(buf, off, p4, EncList(l, ItemRequests(l), r.items));
    Split(buf, off, p3, EncI32(r.timestamps));
    Split(buf, off, p2, EncU32(r.subscription));
    Split(buf, off, p1, EncRequestHeader(l, r.header));
    ServiceTypeRoundTrip(l, buf, off, 751);
    RequestHeaderRoundTrip(l, buf, off + Size(p1), r.header);
    U32RoundTrip(buf, off + Size(p2), r.subscription);
    I32RoundTrip(buf, off + Size(p3), r.timestamps);
    ItemRequestsRoundTrip(l, buf, off + Size(p4), r.items);
  }

  // ---------------------------------------------------------------- Publish and Republish

  datatype Acknowledgement = Acknowledgement(subscription: u32, sequence: u32)

  function EncAcknowledgement(l: Bounds, a: Acknowledgement): (e: Enc)
    ensures e.Written? ==> 8 <= |e.data|
  {
    EncU32(a.subscription).Then(EncU32(a.sequence))
  }

  function ReadAcknowledgement(l: Bounds, buf: bytes, off: nat): Parsed<Acknowledgement> {
    var (subscription, o1) :- ReadU32(buf, off);
    var (sequence, o2) :- ReadU32(buf, o1);
    Ok(Acknowledgement(subscription, sequence), o2)
  }

  lemma AcknowledgementRoundTrip(l: Bounds, buf: bytes, off: nat, a: Acknowledgement)
    requires Stands(buf, off, EncAcknowledgement(l, a))
    ensures ReadAcknowledgement(l, buf, off) == Ok(a, off + Size(EncAcknowledgement(l, a)))
  {
    hide Enc.Then, At, EncU32, ReadU32;
    var p1 := EncU32(a.subscription);
    Split(buf, off, p1, EncU32(a.sequence));
    U32RoundTrip(buf, off, a.subscription);
    U32RoundTrip(buf, off + Size(p1), a.sequence);
  }

  function Acknowledgements(l: Bounds): Format<Acknowledgement> {
    Format(x => true, x => EncAcknowledgement(l, x), (buf, off) => ReadAcknowledgement(l, buf, off), x => x, 8)
  }

  lemma AcknowledgementsRoundTrip(l: Bounds, buf: bytes, off: nat, xs: seq<Acknowledgement>)
    requires Stands(buf, off, EncList(l, Acknowledgements(l), xs))
    ensures ReadList(l, Acknowledgements(l), buf, off) == Ok(xs, off + Size(EncList(l, Acknowledgements(l), xs)))
  {
    AcknowledgementsLawful(l);
    EveryTrue(Acknowledgements(l).ok, xs);
    MapSeqIdentity(Acknowledgements(l).canon, xs);
    hide Acknowledgements;
    ListRoundTrip(l, Acknowledgements(l), xs, buf, off);
  }

  lemma AcknowledgementsLawful(l: Bounds)
    ensures Lawful(Acknowledgements(l))
  {
    hide At, EncAcknowledgement, ReadAcknowledgement;
    forall x, buf, off: nat | Acknowledgements(l).ok(x) && Stands(buf, off, Acknowledgements(l).enc(x))
      ensures Acknowledgements(l).read(buf, off) == Ok(Acknowledgements(l).canon(x), off + Size(Acknowledgements(l).enc(x)))
    {
      AcknowledgementRoundTrip(l, buf, off, x);
    }
  }

  datatype PublishRequest = PublishRequest(header: RequestHeader, acknowledgements: seq<Acknowledgement>)

  function EncPublishRequest(l: Bounds, r: PublishRequest): Enc {
    EncNodeId(l, Numeric(0, 826)).Then(EncRequestHeader(l, r.header)).Then(EncList(l, Acknowledgements(l), r.acknowledgements))
  }

  function ReadPublishRequest(l: Bounds, buf: bytes, off: nat): Parsed<PublishRequest> {
    var (_, o0) :- ReadServiceType(l, 826, buf, off);
    var (header, o1) :- ReadRequestHeader(l, buf, o0);
    var (acknowledgements, o2) :- ReadList(l, Acknowledgements(l), buf, o1);
    Ok(PublishRequest(header, acknowledgements), o2)
  }

  function CanonPublishRequest(r: PublishRequest): PublishRequest {
    r.(header := CanonRequestHeader(r.header))
  }

  lemma PublishRequestRoundTrip(l: Bounds, buf: bytes, off: nat, r: PublishRequest)
    requires Stands(buf, off, EncPublishRequest(l, r))
    ensures ReadPublishRequest(l, buf, off) == Ok(CanonPublishRequest(r), off + Size(EncPublishRequest(l, r)))
  {
    hide Enc.Then, At, EncRequestHeader, ReadRequestHeader, CanonRequestHeader, EncList, ReadList, Acknowledgements, EncNodeId,
      ReadServiceType;
    var p1 := EncNodeId(l, Numeric(0, 826));
    var p2 := p1.Then(EncRequestHeader(l, r.header));
    Split(buf, off, p2, EncList(l, Acknowledgements(l), r.acknowledgements));
    Split(buf, off, p1, EncRequestHeader(l, r.header));
    ServiceTypeRoundTrip(l, buf, off, 826);
    RequestHeaderRoundTrip(l, buf, off + Size(p1), r.header);
    AcknowledgementsRoundTrip(l, buf, off + Size(p2), r.acknowledgements);
  }

  datatype ItemNotification = ItemNotification(clientHandle: u32, value: DataValue)

  function EncItemNotification(l: Bounds, n: ItemNotification): (e: Enc)
    ensures e.Written? ==> 5 <= |e.data|
  {
    EncU32(n.clientHandle).Then(EncDataValue(l, n.value))
  }

  function ReadItemNotification(l: Bounds, buf: bytes, off: nat): Parsed<ItemNotification> {
    var (clientHandle, o1) :- ReadU32(buf, off);
    var (value, o2) :- ReadDataValue(l, buf, o1);
    Ok(ItemNotification(clientHandle, value), o2)
  }

  function CanonItemNotification(n: ItemNotification): ItemNotification {
    n.(value := CanonDataValue(n.value))
  }

  lemma ItemNotificationRoundTrip(l: Bounds, buf: bytes, off: nat, n: ItemNotification)
    requires Readable(l, n.value.value) && Stands(buf, off, EncItemNotification(l, n))
    ensures ReadItemNotification(l, buf, off) == Ok(CanonItemNotification(n), off + Size(EncItemNotification(l, n)))
  {
    hide Enc.Then, At, EncU32, ReadU32, EncDataValue, ReadDataValue, CanonDataValue, Readable;
    var p1 := EncU32(n.clientHandle);
    Split(buf, off, p1, EncDataValue(l, n.value));
    U32RoundTrip(buf, off, n.clientHandle);
    DataValueRoundTrip(l, buf, off + Size(p1), n.value);
  }

  function ItemNotifications(l: Bounds): Format<ItemNotification> {
    Format((x: ItemNotification) => Readable(l, x.value.value), x => EncItemNotification(l, x), (buf, off) => ReadItemNotification(l, buf, off), x => CanonItemNotification(x), 5)
  }

  lemma ItemNotificationsRoundTrip(l: Bounds, buf: bytes, off: nat, xs: seq<ItemNotification>)
    requires Every(ItemNotifications(l).ok, xs) && Stands(buf, off, EncList(l, ItemNotifications(l), xs))
    ensures ReadList(l, ItemNotifications(l), buf, off) == Ok(MapSeq(ItemNotifications(l).canon, xs), off + Size(EncList(l, ItemNotifications(l), xs)))
  {
    ItemNotificationsLawful(l);
    hide ItemNotifications;
    ListRoundTrip(l, ItemNotifications(l), xs, buf, off);
  }

  lemma ItemNotificationsLawful(l: Bounds)
    ensures Lawful(ItemNotifications(l))
  {
    hide At, EncItemNotification, ReadItemNotification, CanonItemNotification, Readable;
    forall x, buf, off: nat | ItemNotifications(l).ok(x) && Stands(buf, off, ItemNotifications(l).enc(x))
      ensures ItemNotifications(l).read(buf, off) == Ok(ItemNotifications(l).canon(x), off + Size(ItemNotifications(l).enc(x)))
    {
      ItemNotificationRoundTrip(l, buf, off, x);
    }
  }

  datatype NotificationMessage = NotificationMessage(sequence: u32, publishTime: Instant, hasData: bool, notifications: seq<ItemNotification>)

  const DATA_CHANGE: NodeId := Numeric(0, 811)

  /** The body of a DataChangeNotification: the items, and an empty array of diagnostics. */
  function EncChanges(l: Bounds, xs: seq<ItemNotification>): Enc {
    EncList(l, ItemNotifications(l), xs).Then(EncArrayLength(l, 0))
  }

  /** The body is written by an encoder of its own, then carried as the ByteString of an ExtensionObject. */
  function EncNotificationData(l: Bounds, body: Enc): Enc {
    if (body.Written? && |body.data| > l.maxMessageBytes) || (body.Refused? && |body.before| > l.maxMessageBytes) then Refused(LimitsExceeded, [])
    else if body.Refused? then Refused(body.error, [])
    else EncExtensionObject(l, ExtensionObject(DATA_CHANGE, 1, body.data))
  }

  function EncNotifications(l: Bounds, m: NotificationMessage): Enc {
    if !m.hasData then EncArrayLength(l, 0) else EncArrayLength(l, 1).Then(EncNotificationData(l, EncChanges(l, m.notifications)))
  }

  function EncNotificationMessage(l: Bounds, m: NotificationMessage): Enc {
    EncU32(m.sequence).Then(EncDateTime(m.publishTime)).Then(EncNotifications(l, m))
  }

  /** One element of NotificationData: any type but a data change is skipped. */
  function ReadChanges(l: Bounds, x: ExtensionObject): Parsed<(bool, seq<ItemNotification>)> {
    if x.typeId != DATA_CHANGE then Ok((false, []), 0)
    else if |x.body| > l.maxMessageBytes then Err(LimitsExceeded)
    else
      var (xs, next) :- ReadList(l, ItemNotifications(l), x.body, 0);
      Ok((true, xs), next)
  }

  function ReadNotifications(l: Bounds, n: nat, buf: bytes, off: nat): Parsed<(bool, seq<ItemNotification>)> {
    if n == 0 then Ok((false, []), off)
    else
      var (x, next) :- ReadExtensionObject(l, buf, off);
      var (first, _) :- ReadChanges(l, x);
      var (rest, after) :- ReadNotifications(l, n - 1, buf, next);
      Ok((first.0 || rest.0, first.1 + rest.1), after)
  }

  function ReadNotificationData(l: Bounds, buf: bytes, off: nat): Parsed<(bool, seq<ItemNotification>)> {
    var (n, next) :- ReadArrayLength(l, buf, off, 3);
    if n.None? then Ok((false, []), next) else ReadNotifications(l, n.value, buf, next)
  }

  function ReadNotificationMessage(l: Bounds, buf: bytes, off: nat): Parsed<NotificationMessage> {
    var (sequence, o1) :- ReadU32(buf, off);
    var (publishTime, o2) :- ReadDateTime(buf, o1);
    var (d, o3) :- ReadNotificationData(l, buf, o2);
    Ok(NotificationMessage(sequence, publishTime, d.0, d.1), o3)
  }

  /** A keep-alive carries no notifications. */
  function CanonNotifications(l: Bounds, m: NotificationMessage): seq<ItemNotification> {
    if m.hasData then MapSeq(ItemNotifications(l).canon, m.notifications) else []
  }

  function CanonNotificationMessage(l: Bounds, m: NotificationMessage): NotificationMessage {
    m.(publishTime := CanonTime(m.publishTime), notifications := CanonNotifications(l, m))
  }

  predicate Deliverable(l: Bounds, m: NotificationMessage) {
    Every(ItemNotifications(l).ok, m.notifications)
  }

  /** The nested body is read back from offset zero of its own buffer; what follows the items is ignored. */
  lemma ChangesRoundTrip(l: Bounds, xs: seq<ItemNotification>)
    requires Every(ItemNotifications(l).ok, xs) && EncChanges(l, xs).Written? && |EncChanges(l, xs).data| <= l.maxMessageBytes
    ensures var r := ReadChanges(l, ExtensionObject(DATA_CHANGE, 1, EncChanges(l, xs).data));
      r.Ok? && r.value == (true, MapSeq(ItemNotifications(l).canon, xs))
  {
    hide EncList, ReadList, ItemNotifications, EncArrayLength, Every;
    var body := EncChanges(l, xs).data;
    assert Stands(body, 0, EncChanges(l, xs)) by { assert body[0..|body|] == body; }
    Split(body, 0, EncList(l, ItemNotifications(l), xs), EncArrayLength(l, 0));
    ItemNotificationsRoundTrip(l, body, 0, xs);
  }

  lemma EmptyLength(l: Bounds)
    ensures EncArrayLength(l, 0) == EncI32(0) && EncArrayLength(l, 1) == EncI32(1)
  {
  }

  lemma NoNotifications(l: Bounds, buf: bytes, off: nat)
    requires Stands(buf, off, EncI32(0))
    ensures ReadNotificationData(l, buf, off) == Ok((false, []), off + 4)
  {
    hide EncI32, ReadI32;
    I32RoundTrip(buf, off, 0);
  }

  lemma OneNotification(l: Bounds, buf: bytes, off: nat, x: ExtensionObject)
    requires Stands(buf, off, EncI32(1).Then(EncExtensionObject(l, x))) && ReadChanges(l, CanonObject(x)).Ok?
    ensures ReadNotificationData(l, buf, off)
      == Ok(ReadChanges(l, CanonObject(x)).value, off + 4 + Size(EncExtensionObject(l, x)))
  {
    hide EncI32, ReadI32, EncExtensionObject, ReadExtensionObject, ReadChanges, At, Enc.Then;
    Split(buf, off, EncI32(1), EncExtensionObject(l, x));
    I32RoundTrip(buf, off, 1);
    ExtensionObjectRoundTrip(l, buf, off + 4, x);
    var r := ReadChanges(l, CanonObject(x)).value;
    assert r.1 + [] == r.1 && r == (r.0, r.1);
    AtFits(buf, off + 4, EncExtensionObject(l, x).data);
    assert ReadNotifications(l, 0, buf, off + 4 + Size(EncExtensionObject(l, x))) == Ok((false, []), off + 4 + Size(EncExtensionObject(l, x)));
    assert ReadNotifications(l, 1, buf, off + 4) == Ok(r, off + 4 + Size(EncExtensionObject(l, x)));
  }

  lemma NotificationsRoundTrip(l: Bounds, buf: bytes, off: nat, m: NotificationMessage)
    requires Deliverable(l, m) && Stands(buf, off, EncNotifications(l, m))
    ensures ReadNotificationData(l, buf, off) == Ok((m.hasData, CanonNotifications(l, m)), off + Size(EncNotifications(l, m)))
  {
    hide At, EncI32, EncExtensionObject, ReadChanges, ReadNotificationData, ItemNotifications, EncChanges, EncArrayLength, MapSeq;
    EmptyLength(l);
    if !m.hasData {
      NoNotifications(l, buf, off);
    } else {
      ChangesRoundTrip(l, m.notifications);
      OneNotification(l, buf, off, ExtensionObject(DATA_CHANGE, 1, EncChanges(l, m.notifications).data));
    }
  }

  /** Every NotificationMessage, with the data change nested in it, reads back as itself. */
  lemma NotificationMessageRoundTrip(l: Bounds, buf: bytes, off: nat, m: NotificationMessage)
    requires Deliverable(l, m) && Stands(buf, off, EncNotificationMessage(l, m))
    ensures ReadNotificationMessage(l, buf, off) == Ok(CanonNotificationMessage(l, m), off + Size(EncNotificationMessage(l, m)))
  {
    hide At, EncU32, ReadU32, EncDateTime, ReadDateTime, EncNotifications, ReadNotificationData, Enc.Then, Deliverable, CanonNotifications, CanonTime;
    var p1 := EncU32(m.sequence);
    var p2 := p1.Then(EncDateTime(m.publishTime));
    Split(buf, off, p2, EncNotifications(l, m));
    Split(buf, off, p1, EncDateTime(m.publishTime));
    U32RoundTrip(buf, off, m.sequence);
    DateTimeWireRoundTrip(buf, off + Size(p1), m.publishTime);
    NotificationsRoundTrip(l, buf, off + Size(p2), m);
  }

  datatype PublishResponse = PublishResponse(header: ResponseHeader, subscription: u32, available: seq<u32>, more: bool, message: NotificationMessage, results: seq<u32>, diagnostics: seq<DiagnosticInfo>)

  function EncPublishResponse(l: Bounds, r: PublishResponse): Enc {
    EncNodeId(l, Numeric(0, 829)).Then(EncResponseHeader(l, r.header)).Then(EncU32(r.subscription))
      .Then(EncList(l, Numbers(l), r.available)).Then(EncBool(r.more)).Then(EncNotificationMessage(l, r.message))
      .Then(EncList(l, Numbers(l), r.results)).Then(EncList(l, Diagnostics(l), r.diagnostics))
  }

  function ReadPublishResponse(l: Bounds, buf: bytes, off: nat): Parsed<PublishResponse> {
    var (_, o0) :- ReadServiceType(l, 829, buf, off);
    var (header, o1) :- ReadResponseHeader(l, buf, o0);
    var (subscription, o2) :- ReadU32(buf, o1);
    var (available, o3) :- ReadList(l, Numbers(l), buf, o2);
    var (more, o4) :- ReadBool(buf, o3);
    var (message, o5) :- ReadNotificationMessage(l, buf, o4);
    var (results, o6) :- ReadList(l, Numbers(l), buf, o5);
    var (diagnostics, o7) :- ReadList(l, Diagnostics(l), buf, o6);
    Ok(PublishResponse(header, subscription, available, more, message, results, diagnostics), o7)
  }

  function CanonPublishResponse(l: Bounds, r: PublishResponse): PublishResponse {
    r.(header := CanonResponseHeader(r.header), message := CanonNotificationMessage(l, r.message))
  }

  lemma PublishResponseRoundTrip(l: Bounds, buf: bytes, off: nat, r: PublishResponse)
    requires Deliverable(l, r.message) && Stands(buf, off, EncPublishResponse(l, r))
    ensures ReadPublishResponse(l, buf, off) == Ok(CanonPublishResponse(l, r), off + Size(EncPublishResponse(l, r)))
  {
    hide Enc.Then, At, EncResponseHeader, ReadResponseHeader, CanonResponseHeader, EncU32, ReadU32, EncList, ReadList, Numbers, EncBool,
      ReadBool, EncNotificationMessage, ReadNotificationMessage, CanonNotificationMessage, Diagnostics, EncNodeId, ReadServiceType;
    var p1 := EncNodeId(l, Numeric(0, 829));
    var p2 := p1.Then(EncResponseHeader(l, r.header));
    var p3 := p2.Then(EncU32(r.subscription));
    var p4 := p3.Then(EncList(l, Numbers(l), r.available));
    var p5 := p4.Then(EncBool(r.more));
    var p6 := p5.Then(EncNotificationMessage(l, r.message));
    var p7 := p6.Then(EncList(l, Numbers(l), r.results));
    Split(buf, off, p7, EncList(l, Diagnostics(l), r.diagnostics));
    Split(buf, off, p6, EncList(l, Numbers(l), r.results));
    Split(buf, off, p5, EncNotificationMessage(l, r.message));
    Split(buf, off, p4, EncBool(r.more));
    Split(buf, off, p3, EncList(l, Numbers(l), r.available));
    Split(buf, off, p2, EncU32(r.subscription));
    Split(buf, off, p1, EncResponseHeader(l, r.header));
    ServiceTypeRoundTrip(l, buf, off, 829);
    ResponseHeaderRoundTrip(l, buf, off + Size(p1), r.header);
    U32RoundTrip(buf, off + Size(p2), r.subscription);
    NumbersRoundTrip(l, buf, off + Size(p3), r.available);
    BoolRoundTrip(buf, off + Size(p4), r.more);
    NotificationMessageRoundTrip(l, buf, off + Size(p5), r.message);
    NumbersRoundTrip(l, buf, off + Size(p6), r.results);
    DiagnosticsRoundTrip(l, buf, off + Size(p7), r.diagnostics);
  }

  datatype RepublishResponse = RepublishResponse(header: ResponseHeader, message: NotificationMessage)

  function EncRepublishResponse(l: Bounds, r: RepublishResponse): Enc {
    EncNodeId(l, Numeric(0, 835)).Then(EncResponseHeader(l, r.header)).Then(EncNotificationMessage(l, r.message))
  }

  function ReadRepublishResponse(l: Bounds, buf: bytes, off: nat): Parsed<RepublishResponse> {
    var (_, o0) :- ReadServiceType(l, 835, buf, off);
    var (header, o1) :- ReadResponseHeader(l, buf, o0);
    var (message, o2) :- ReadNotificationMessage(l, buf, o1);
    Ok(RepublishResponse(header, message), o2)
  }

  function CanonRepublishResponse(l: Bounds, r: RepublishResponse): RepublishResponse {
    r.(header := CanonResponseHeader(r.header), message := CanonNotificationMessage(l, r.message))
  }

  lemma RepublishResponseRoundTrip(l: Bounds, buf: bytes, off: nat, r: RepublishResponse)
    requires Deliverable(l, r.message) && Stands(buf, off, EncRepublishResponse(l, r))
    ensures ReadRepublishResponse(l, buf, off) == Ok(CanonRepublishResponse(l, r), off + Size(EncRepublishResponse(l, r)))
  {
    hide Enc.Then, At, EncResponseHeader, ReadResponseHeader, CanonResponseHeader, EncNotificationMessage, ReadNotificationMessage,
      CanonNotificationMessage, EncNodeId, ReadServiceType;
    var p1 := EncNodeId(l, Numeric(0, 835));
    var p2 := p1.Then(EncResponseHeader(l, r.header));
    Split(buf, off, p2, EncNotificationMessage(l, r.message));
    Split(buf, off, p1, EncResponseHeader(l, r.header));
    ServiceTypeRoundTrip(l, buf, off, 835);
    ResponseHeaderRoundTrip(l, buf, off + Size(p1), r.header);
    NotificationMessageRoundTrip(l, buf, off + Size(p2), r.message);
  }
}
