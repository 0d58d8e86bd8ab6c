/**
 * What the readers take that the writers here never write: null where a list or a
 * text may be empty, numbers in a longer form than they need, bits and encodings
 * nobody assigned; and what they refuse.
 */
module Acceptance {
  import opened Prelude
  import opened Ints
  import opened Wire
  import opened NodeIds
  import opened Variants
  import opened Messages
  import opened ReferenceBytes

  // ---------------------------------------------------------------- lengths

  /** The four bytes at `off` as an unsigned number. */
  function Word(buf: bytes, off: nat): nat
    requires off + 4 <= |buf|
  {
    (buf[off] as int) + 256 * (buf[off + 1] as int) + 65536 * (buf[off + 2] as int) + 16777216 * (buf[off + 3] as int)
  }

  lemma WordIsRead(buf: bytes, off: nat)
    requires off + 4 <= |buf|
    ensures ReadU32(buf, off) == Ok(Word(buf, off), off + 4)
  {
    FourDigits(buf[off], buf[off + 1], buf[off + 2], buf[off + 3], []);
    assert buf[off..off + 4] == [buf[off], buf[off + 1], buf[off + 2], buf[off + 3]] + [];
    Powers();
  }

  lemma TooShort(buf: bytes, off: nat)
    requires off + 4 > |buf|
    ensures ReadU32(buf, off) == Err(DecodingError)
  {
  }

  /** A length is null exactly if all its bits are set; of the others, a negative one is malformed and one past the bound over the limit. */
  lemma LengthReadExactly(buf: bytes, off: nat, bound: nat)
    ensures ReadLength(buf, off, bound)
      == if off + 4 > |buf| then Err(DecodingError)
         else if Word(buf, off) == 0xFFFF_FFFF then Ok(None, off + 4)
         else if Word(buf, off) >= 0x8000_0000 then Err(DecodingError)
         else if Word(buf, off) > bound then Err(LimitsExceeded)
         else Ok(Some(Word(buf, off)), off + 4)
  {
    hide ReadU32;
    if off + 4 <= |buf| {
      WordIsRead(buf, off);
    } else {
      TooShort(buf, off);
    }
  }

  /** A list of any format may be null, and then is empty. */
  lemma NullList<T>(l: Bounds, f: Format<T>, buf: bytes, off: nat)
    requires At(buf, off, NULL)
    ensures ReadList(l, f, buf, off) == Ok([], off + 4)
  {
    NullIs();
    NullRoundTrip(buf, off, l.maxArrayLength);
  }

  /** A list is refused for its count before any element is read: past the limit, or more than the bytes that remain can hold. */
  lemma ListRefused<T>(l: Bounds, f: Format<T>, buf: bytes, off: nat)
    requires off + 4 <= |buf| && Word(buf, off) < 0x8000_0000
    ensures Word(buf, off) > l.maxArrayLength ==> ReadList(l, f, buf, off) == Err(LimitsExceeded)
    ensures Word(buf, off) <= l.maxArrayLength && Word(buf, off) * f.floor > |buf| - (off + 4) ==> ReadList(l, f, buf, off) == Err(DecodingError)
  {
    hide ReadLength, Word;
    LengthReadExactly(buf, off, l.maxArrayLength);
  }

  lemma NullText(l: Limits, buf: bytes, off: nat)
    requires At(buf, off, NULL)
    ensures ReadText(l, buf, off) == Ok([], off + 4)
  {
    NullIs();
    NullRoundTrip(buf, off, l.maxStringBytes);
  }

  /** Any byte but zero is true. */
  lemma BoolReadExactly(buf: bytes, off: nat)
    ensures ReadBool(buf, off) == if off >= |buf| then Err(DecodingError) else Ok(buf[off] != 0, off + 1)
  {
  }

  // ---------------------------------------------------------------- whole requests

  /** Of two parts in a row the first is accepted by its writer. */
  lemma Head(buf: bytes, off: nat, a: Enc, b: bytes)
    requires a.Written? && At(buf, off, a.data + b)
    ensures Stands(buf, off, a) && At(buf, off + Size(a), b)
  {
    AtConcat(buf, off, a.data, b);
  }

  /** A client with nothing to acknowledge may send null. */
  lemma NothingAcknowledged(l: Bounds, buf: bytes, off: nat, h: RequestHeader)
    requires EncRequestHeader(l, h).Written? && At(buf, off, [1, 0, 0x3A, 0x03] + RequestHeaderBytes(h) + NULL)
    ensures ReadPublishRequest(l, buf, off) == Ok(PublishRequest(CanonRequestHeader(h), []), off + 4 + |RequestHeaderBytes(h)| + 4)
  {
    hide At, EncNodeIdFlags, EncRequestHeader, RequestHeaderBytes, ReadRequestHeader, ReadServiceType, CanonRequestHeader, ReadList, Acknowledgements;
    TypeIs(l, 826);
    RequestHeaderIs(l, h);
    var (a, b) := (EncNodeId(l, Numeric(0, 826)), EncRequestHeader(l, h));
    Head(buf, off, a.Then(b), NULL);
    Split(buf, off, a, b);
    ServiceTypeRoundTrip(l, buf, off, 826);
    RequestHeaderRoundTrip(l, buf, off + 4, h);
    NullList(l, Acknowledgements(l), buf, off + 4 + Size(b));
  }

  lemma NothingToBrowse(l: Bounds, buf: bytes, off: nat, h: RequestHeader, w: ViewDescription, most: u32)
    requires EncRequestHeader(l, h).Written? && EncViewDescription(l, w).Written?
    requires At(buf, off, [1, 0, 0x0F, 0x02] + RequestHeaderBytes(h) + ViewBytes(w) + Four(most) + NULL)
    ensures ReadBrowseRequest(l, buf, off)
      == Ok(BrowseRequest(CanonRequestHeader(h), CanonViewDescription(w), most, []), off + 4 + |RequestHeaderBytes(h)| + |ViewBytes(w)| + 8)
  {
    hide At, EncNodeIdFlags, EncRequestHeader, RequestHeaderBytes, ReadRequestHeader, ReadServiceType, CanonRequestHeader, ReadList,
      BrowseDescriptions, EncViewDescription, ViewBytes, ReadViewDescription, CanonViewDescription, EncU32, Four, ReadU32;
    TypeIs(l, 527);
    RequestHeaderIs(l, h);
    ViewIs(l, w);
    FourIs(most);
    var (a, b, c, d) := (EncNodeId(l, Numeric(0, 527)), EncRequestHeader(l, h), EncViewDescription(l, w), EncU32(most));
    Head(buf, off, a.Then(b).Then(c).Then(d), NULL);
    Split(buf, off, a.Then(b).Then(c), d);
    Split(buf, off, a.Then(b), c);
    Split(buf, off, a, b);
    ServiceTypeRoundTrip(l, buf, off, 527);
    RequestHeaderRoundTrip(l, buf, off + 4, h);
    ViewDescriptionRoundTrip(l, buf, off + 4 + Size(b), w);
    U32RoundTrip(buf, off + 4 + Size(b) + Size(c), most);
    NullList(l, BrowseDescriptions(l), buf, off + 8 + Size(b) + Size(c));
  }

  lemma NothingToRead(l: Bounds, buf: bytes, off: nat, h: RequestHeader, maxAge: u64, timestamps: i32)
    requires EncRequestHeader(l, h).Written?
    requires At(buf, off, [1, 0, 0x77, 0x02] + RequestHeaderBytes(h) + DoubleBytes(maxAge) + SignedFour(timestamps) + NULL)
    ensures ReadReadRequest(l, buf, off)
      == Ok(ReadRequest(CanonRequestHeader(h), Canon64(maxAge), timestamps, []), off + 4 + |RequestHeaderBytes(h)| + 16)
  {
    hide At, EncNodeIdFlags, EncRequestHeader, RequestHeaderBytes, ReadRequestHeader, ReadServiceType, CanonRequestHeader, ReadList, ReadValueIds,
      EncU64, DoubleBytes, Canon64, ReadU64, EncI32, SignedFour, ReadI32;
    TypeIs(l, 631);
    RequestHeaderIs(l, h);
    DoubleIs(maxAge);
    SignedIs(timestamps);
    var (a, b, c, d) := (EncNodeId(l, Numeric(0, 631)), EncRequestHeader(l, h), EncU64(Canon64(maxAge)), EncI32(timestamps));
    Head(buf, off, a.Then(b).Then(c).Then(d), NULL);
    Split(buf, off, a.Then(b).Then(c), d);
    Split(buf, off, a.Then(b), c);
    Split(buf, off, a, b);
    ServiceTypeRoundTrip(l, buf, off, 631);
    RequestHeaderRoundTrip(l, buf, off + 4, h);
    U64RoundTrip(buf, off + 4 + Size(b), Canon64(maxAge));
    I32RoundTrip(buf, off + 12 + Size(b), timestamps);
    NullList(l, ReadValueIds(l), buf, off + 16 + Size(b));
  }

  lemma NothingToWrite(l: Bounds, buf: bytes, off: nat, h: RequestHeader)
    requires EncRequestHeader(l, h).Written? && At(buf, off, [1, 0, 0xA1, 0x02] + RequestHeaderBytes(h) + NULL)
    ensures ReadWriteRequest(l, buf, off) == Ok(WriteRequest(CanonRequestHeader(h), []), off + 4 + |RequestHeaderBytes(h)| + 4)
  {
    hide At, EncNodeIdFlags, EncRequestHeader, RequestHeaderBytes, ReadRequestHeader, ReadServiceType, CanonRequestHeader, ReadList, WriteValues;
    TypeIs(l, 673);
    RequestHeaderIs(l, h);
    var (a, b) := (EncNodeId(l, Numeric(0, 673)), EncRequestHeader(l, h));
    Head(buf, off, a.Then(b), NULL);
    Split(buf, off, a, b);
    ServiceTypeRoundTrip(l, buf, off, 673);
    RequestHeaderRoundTrip(l, buf, off + 4, h);
    NullList(l, WriteValues(l), buf, off + 4 + Size(b));
  }

  lemma NothingToMonitor(l: Bounds, buf: bytes, off: nat, h: RequestHeader, subscription: u32, timestamps: i32)
    requires EncRequestHeader(l, h).Written?
    requires At(buf, off, [1, 0, 0xEF, 0x02] + RequestHeaderBytes(h) + Four(subscription) + SignedFour(timestamps) + NULL)
    ensures ReadCreateMonitoredItemsRequest(l, buf, off)
      == Ok(CreateMonitoredItemsRequest(CanonRequestHeader(h), subscription, timestamps, []), off + 4 + |RequestHeaderBytes(h)| + 12)
  {
    hide At, EncNodeIdFlags, EncRequestHeader, RequestHeaderBytes, ReadRequestHeader, ReadServiceType, CanonRequestHeader, ReadList, ItemRequests,
      EncU32, Four, ReadU32, EncI32, SignedFour, ReadI32;
    TypeIs(l, 751);
    RequestHeaderIs(l, h);
    FourIs(subscription);
    SignedIs(timestamps);
    var (a, b, c, d) := (EncNodeId(l, Numeric(0, 751)), EncRequestHeader(l, h), EncU32(subscription), EncI32(timestamps));
    Head(buf, off, a.Then(b).Then(c).Then(d), NULL);
    Split(buf, off, a.Then(b).Then(c), d);
    Split(buf, off, a.Then(b), c);
    Split(buf, off, a, b);
    ServiceTypeRoundTrip(l, buf, off, 751);
    RequestHeaderRoundTrip(l, buf, off + 4, h);
    U32RoundTrip(buf, off + 4 + Size(b), subscription);
    I32RoundTrip(buf, off + 8 + Size(b), timestamps);
    NullList(l, ItemRequests(l), buf, off + 12 + Size(b));
  }

  /** A message of another type is not taken for any of these. */
  lemma OtherTypesRefused(l: Bounds, buf: bytes, off: nat, id: u32)
    requires Stands(buf, off, EncNodeId(l, Numeric(0, id)))
    ensures id != 826 ==> ReadPublishRequest(l, buf, off).Err?
    ensures id != 527 ==> ReadBrowseRequest(l, buf, off).Err?
    ensures id != 631 ==> ReadReadRequest(l, buf, off).Err?
    ensures id != 673 ==> ReadWriteRequest(l, buf, off).Err?
    ensures id != 751 ==> ReadCreateMonitoredItemsRequest(l, buf, off).Err?
    ensures id != 829 ==> ReadPublishResponse(l, buf, off).Err?
    ensures id != 835 ==> ReadRepublishResponse(l, buf, off).Err?
  {
    hide At, EncNodeId, ReadNodeId, ReadRequestHeader, ReadResponseHeader, ReadList;
    NodeIdRoundTrip(l, buf, off, Numeric(0, id));
  }

  /** A notification message with no list at all is one with no data; a string table may be absent. */
  lemma NullNotifications(l: Bounds, buf: bytes, off: nat)
    requires At(buf, off, NULL)
    ensures ReadNotificationData(l, buf, off) == Ok((false, []), off + 4)
    ensures ReadStringTable(l, buf, off) == Ok(None, off + 4)
  {
    NullIs();
    NullRoundTrip(buf, off, l.maxArrayLength);
  }

  // ---------------------------------------------------------------- identifiers, texts and objects

  /** A numeric identifier is taken in any form it fits, not only the shortest. */
  lemma AnyNumericForm(l: Limits, buf: bytes, off: nat, ns: u16, id: u32)
    ensures ns == 0 && id < 0x100 && At(buf, off, [0, id]) ==> ReadNodeId(l, buf, off) == Ok(Numeric(ns, id), off + 2)
    ensures ns < 0x100 && id < 0x1_0000 && At(buf, off, [1, ns] + Two(id)) ==> ReadNodeId(l, buf, off) == Ok(Numeric(ns, id), off + 4)
    ensures At(buf, off, [2] + Two(ns) + Four(id)) ==> ReadNodeId(l, buf, off) == Ok(Numeric(ns, id), off + 7)
  {
    hide Two, Four, ReadNodeId, At;
    if ns < 0x100 && id < 0x1_0000 && At(buf, off, [1, ns] + Two(id)) {
      ShortForm(l, buf, off, ns, id);
    }
    if ns == 0 && id < 0x100 && At(buf, off, [0, id]) {
      ShortestForm(l, buf, off, id);
    }
    if At(buf, off, [2] + Two(ns) + Four(id)) {
      FullForm(l, buf, off, ns, id);
    }
  }

  lemma ShortestForm(l: Limits, buf: bytes, off: nat, id: byte)
    requires At(buf, off, [0, id])
    ensures ReadNodeId(l, buf, off) == Ok(Numeric(0, id), off + 2)
  {
    hide ReadIdentifier;
    assert buf[off..off + 2][0] == buf[off] && buf[off..off + 2][1] == buf[off + 1];
  }

  lemma ShortForm(l: Limits, buf: bytes, off: nat, ns: byte, id: u16)
    requires At(buf, off, [1, ns] + Two(id))
    ensures ReadNodeId(l, buf, off) == Ok(Numeric(ns, id), off + 4)
  {
    hide Two, EncU16, ReadU16, ReadIdentifier;
    TwoIs(id);
    AtConcat(buf, off, [1, ns], Two(id));
    assert buf[off..off + 2][0] == buf[off] && buf[off..off + 2][1] == buf[off + 1];
    U16RoundTrip(buf, off + 2, id);
  }

  lemma FullForm(l: Limits, buf: bytes, off: nat, ns: u16, id: u32)
    requires At(buf, off, [2] + Two(ns) + Four(id))
    ensures ReadNodeId(l, buf, off) == Ok(Numeric(ns, id), off + 7)
  {
    hide Two, Four, EncU16, EncU32, ReadU16, ReadU32, ReadCompact;
    TwoIs(ns);
    FourIs(id);
    AtThree(buf, off, [2], Two(ns), Four(id));
    assert buf[off..off + 1][0] == buf[off];
    U16RoundTrip(buf, off + 1, ns);
    U32RoundTrip(buf, off + 3, id);
  }

  /** An encoding byte with flags, or of no form the standard gives, is refused. */
  lemma NodeIdRefused(l: Limits, buf: bytes, off: nat)
    requires off < |buf| && buf[off] > 5
    ensures ReadNodeId(l, buf, off).Err?
  {
  }

  /** Each field of a localized text is there exactly if its bit is set, whatever the other bits say. */
  lemma AnyMaskedText(l: Limits, buf: bytes, off: nat, mask: byte, locale: bytes, text: bytes)
    requires l.Valid() && |locale| <= l.maxStringBytes && |text| <= l.maxStringBytes
    requires At(buf, off, [mask] + (if mask % 2 == 1 then Text(locale) else []) + (if mask / 2 % 2 == 1 then Text(text) else []))
    ensures ReadLocalizedText(l, buf, off)
      == Ok(LocalizedText(if mask % 2 == 1 then locale else [], if mask / 2 % 2 == 1 then text else []),
            off + 1 + (if mask % 2 == 1 then 4 + |locale| else 0) + (if mask / 2 % 2 == 1 then 4 + |text| else 0))
  {
    hide Text, ReadText, EncString;
    WrittenText(l, locale);
    WrittenText(l, text);
    var (a, b) := (if mask % 2 == 1 then Text(locale) else [], if mask / 2 % 2 == 1 then Text(text) else []);
    AtThree(buf, off, [mask], a, b);
    assert buf[off..off + 1][0] == buf[off];
    assert (Has(mask, 0) <==> mask % 2 == 1) && (Has(mask, 1) <==> Has(mask / 2, 0));
    if mask % 2 == 1 {
      TextRoundTrip(l, buf, off + 1, locale);
    }
    if mask / 2 % 2 == 1 {
      TextRoundTrip(l, buf, off + 1 + |a|, text);
    }
  }

  lemma WrittenText(l: Limits, v: bytes)
    requires l.Valid() && |v| <= l.maxStringBytes
    ensures EncString(l, v).Written? && EncString(l, v).data == Text(v) && |Text(v)| == 4 + |v|
  {
    hide Text;
    TextIs(l, v);
  }

  /** An object's body may be null, and then is empty; an encoding that is not assigned is refused. */
  lemma AnyObject(l: Limits, buf: bytes, off: nat, typeId: NodeId, encoding: byte)
    requires l.Valid() && EncNodeId(l, typeId).Written? && At(buf, off, EncNodeId(l, typeId).data + [encoding])
    ensures var next := off + |EncNodeId(l, typeId).data| + 1;
      && (encoding > 2 ==> ReadExtensionObject(l, buf, off) == Err(DecodingError))
      && (encoding == 0 ==> ReadExtensionObject(l, buf, off) == Ok(ExtensionObject(typeId, 0, []), next))
      && (1 <= encoding <= 2 && At(buf, next, NULL) ==> ReadExtensionObject(l, buf, off) == Ok(ExtensionObject(typeId, encoding, []), next + 4))
  {
    hide EncNodeId, ReadNodeId, ReadBlob;
    AtConcat(buf, off, EncNodeId(l, typeId).data, [encoding]);
    NodeIdRoundTrip(l, buf, off, typeId);
    var next := off + |EncNodeId(l, typeId).data| + 1;
    assert buf[next - 1..next][0] == buf[next - 1];
    if At(buf, next, NULL) {
      NullIs();
      NullRoundTrip(buf, next, l.maxByteStringBytes);
    }
  }

  // ---------------------------------------------------------------- Variant and DataValue

  /**
   * The mask of a Variant: type 0 is null whatever the other bits say; there is no
   * type past 31; dimensions need an array. An array may be null, and a type the
   * standard has not assigned is read as a ByteString.
   */
  lemma VariantMasks(l: Limits, buf: bytes, off: nat)
    requires l.Valid() && off < |buf|
    ensures var (mask, r) := (buf[off], ReadVariant(l, buf, off));
      && (mask % 0x40 == 0 ==> r == Ok(NULL_VARIANT, off + 1))
      && (mask % 0x40 > 31 ==> r == Err(DecodingError))
      && (0x40 < mask < 0x80 ==> r == Err(DecodingError))
      && (0x81 <= mask <= 0x9F && At(buf, off + 1, NULL) ==> r == Ok(Variant(mask % 0x40, NoValue, true, []), off + 5))
  {
    hide SkipBuiltIn, SkipMany, ReadArrayDimensions, ReadArrayLength, At;
    if 0x81 <= buf[off] <= 0x9F && At(buf, off + 1, NULL) {
      NullArray(l, buf, off + 1, buf[off] % 0x40);
    }
  }

  lemma NullArray(l: Limits, buf: bytes, off: nat, typeId: byte)
    requires At(buf, off, NULL)
    ensures ReadArrayLength(l, buf, off, 1) == Ok(None, off + 4) && SkipMany(l, typeId, 0, buf, off + 4) == Ok((), off + 4)
  {
    hide SkipBuiltIn;
    NullIs();
    NullRoundTrip(buf, off, l.maxArrayLength);
  }

  lemma UnassignedType(l: Limits, buf: bytes, off: nat, typeId: byte, v: bytes)
    requires l.Valid() && 26 <= typeId <= 31 && |v| <= l.maxByteStringBytes && At(buf, off, [typeId] + Text(v))
    ensures ReadVariant(l, buf, off) == Ok(Variant(typeId, VByteString(v), false, []), off + 5 + |v|)
  {
    hide Text, SkipBuiltIn, SkipMany, ReadArrayDimensions, ReadArrayLength, EncByteString;
    AtConcat(buf, off, [typeId], Text(v));
    assert buf[off..off + 1][0] == buf[off];
    WrittenBlob(l, v);
    BlobIsRead(l, buf, off + 1, v);
    SkippedBlob(l, typeId, buf, off + 1);
  }

  lemma SkippedBlob(l: Limits, typeId: byte, buf: bytes, off: nat)
    requires 26 <= typeId <= 31
    ensures SkipBuiltIn(l, typeId, buf, off) == BlobValue(ReadByteString(l, buf, off), x => VByteString(x))
  {
    hide ReadBlob;
  }

  lemma WrittenBlob(l: Limits, v: bytes)
    requires l.Valid() && |v| <= l.maxByteStringBytes
    ensures EncByteString(l, v).Written? && EncByteString(l, v).data == Text(v) && |Text(v)| == 4 + |v|
  {
    hide Text;
    BlobIs(l, v);
  }

  lemma BlobIsRead(l: Limits, buf: bytes, off: nat, v: bytes)
    requires l.Valid() && EncByteString(l, v).Written? && At(buf, off, EncByteString(l, v).data)
    ensures ReadByteString(l, buf, off) == Ok(Some(v), off + 4 + |v|)
  {
    BlobRoundTrip(buf, off, v, l.maxByteStringBytes);
  }

  /** Bit `k` of a mask, for the six a DataValue has. */
  predicate Announces(mask: byte, k: nat)
    requires k < 6
  {
    [mask, mask / 2, mask / 4, mask / 8, mask / 16, mask / 32][k] % 2 == 1
  }

  lemma AnnouncesHas(mask: byte)
    ensures forall k: nat :: k < 6 ==> Announces(mask, k) == Has(mask, k)
  {
    hide Has;
    forall k: nat | k < 6 ensures Announces(mask, k) == Has(mask, k) {
      Shifted(mask, k);
    }
  }

  /** Each bit in turn becomes the lowest. */
  lemma Shifted(mask: byte, k: nat)
    requires k < 6
    ensures Has(mask, k) <==> [mask, mask / 2, mask / 4, mask / 8, mask / 16, mask / 32][k] % 2 == 1
  {
    hide Has;
    Halves(mask);
    HasNext(mask, k);
    if k > 0 { HasNext(mask / 2, k - 1); }
    if k > 1 { HasNext(mask / 4, k - 2); }
    if k > 2 { HasNext(mask / 8, k - 3); }
    if k > 3 { HasNext(mask / 16, k - 4); }
    if k > 4 { HasNext(mask / 32, k - 5); }
  }

  lemma Halves(mask: nat)
    ensures mask / 2 / 2 == mask / 4 && mask / 4 / 2 == mask / 8 && mask / 8 / 2 == mask / 16 && mask / 16 / 2 == mask / 32
  {
  }

  lemma HasNext(mask: nat, k: nat)
    ensures Has(mask, k) == if k == 0 then mask % 2 == 1 else Has(mask / 2, k - 1)
  {
  }

  function Part(present: bool, v: bytes): bytes { if present then v else [] }

  /** The fields after the Variant, as the mask announces them. */
  function StampsSpelled(mask: byte, status: u32, source: u64, sourcePico: u16, server: u64, serverPico: u16): bytes {
    Part(Announces(mask, 1), Four(status)) + Part(Announces(mask, 2), Eight(source)) + Part(Announces(mask, 4), Two(sourcePico))
    + Part(Announces(mask, 3), Eight(server)) + Part(Announces(mask, 5), Two(serverPico))
  }

  /**
   * A DataValue without a Variant may announce any of its other fields, picoseconds
   * without a time among them; those it does not announce take their defaults, and
   * picoseconds past 9999 are read as 9999.
   */
  lemma AnyStamps(l: Limits, buf: bytes, off: nat, mask: byte, status: u32, source: u64, sourcePico: u16, server: u64, serverPico: u16)
    requires l.Valid() && mask % 2 == 0 && At(buf, off, [mask] + StampsSpelled(mask, status, source, sourcePico, server, serverPico))
    ensures ReadDataValue(l, buf, off)
      == Ok(DataValue(NULL_VARIANT, if Announces(mask, 1) then status else 0,
                      if Announces(mask, 2) then DecodeDateTime(I64Of(source)) else ZERO_TIME,
                      if !Announces(mask, 4) then 0 else if sourcePico > 9999 then 9999 else sourcePico,
                      if Announces(mask, 3) then DecodeDateTime(I64Of(server)) else ZERO_TIME,
                      if !Announces(mask, 5) then 0 else if serverPico > 9999 then 9999 else serverPico),
            off + 1 + |StampsSpelled(mask, status, source, sourcePico, server, serverPico)|)
  {
    hide Announces, Has, StampsSpelled, ReadStamps, ReadVariant, At;
    NoValueBit(mask);
    AtConcat(buf, off, [mask], StampsSpelled(mask, status, source, sourcePico, server, serverPico));
    ByteRoundTrip(buf, off, mask);
    StampsRead(mask, NULL_VARIANT, buf, off + 1, status, source, sourcePico, server, serverPico);
  }

  lemma StampsRead(mask: byte, value: Variant, buf: bytes, off: nat, status: u32, source: u64, sourcePico: u16, server: u64, serverPico: u16)
    requires At(buf, off, StampsSpelled(mask, status, source, sourcePico, server, serverPico))
    ensures ReadStamps(mask, value, buf, off)
      == Ok(DataValue(value, if Announces(mask, 1) then status else 0,
                      if Announces(mask, 2) then DecodeDateTime(I64Of(source)) else ZERO_TIME,
                      if !Announces(mask, 4) then 0 else if sourcePico > 9999 then 9999 else sourcePico,
                      if Announces(mask, 3) then DecodeDateTime(I64Of(server)) else ZERO_TIME,
                      if !Announces(mask, 5) then 0 else if serverPico > 9999 then 9999 else serverPico),
            off + |StampsSpelled(mask, status, source, sourcePico, server, serverPico)|)
  {
    AnnouncesHas(mask);
    hide Announces, Has, Four, Eight, Two, ReadU32, ReadDateTime, ReadU16, At, Optional, Part;
    var (a, b, c) := (Part(Announces(mask, 1), Four(status)), Part(Announces(mask, 2), Eight(source)), Part(Announces(mask, 4), Two(sourcePico)));
    var (d, e) := (Part(Announces(mask, 3), Eight(server)), Part(Announces(mask, 5), Two(serverPico)));
    AtConcat(buf, off, a + b + c + d, e);
    AtConcat(buf, off, a + b + c, d);
    AtThree(buf, off, a, b, c);
    OptionalWord(Announces(mask, 1), buf, off, status);
    OptionalTime(Announces(mask, 2), buf, off + |a|, source);
    OptionalPico(Announces(mask, 4), buf, off + |a| + |b|, sourcePico);
    OptionalTime(Announces(mask, 3), buf, off + |a| + |b| + |c|, server);
    OptionalPico(Announces(mask, 5), buf, off + |a| + |b| + |c| + |d|, serverPico);
  }

  lemma OptionalWord(present: bool, buf: bytes, off: nat, v: u32)
    requires At(buf, off, Part(present, Four(v)))
    ensures Optional(present, ReadU32(buf, off), 0, off) == Ok(if present then v else 0, off + |Part(present, Four(v))|)
  {
    FourIs(v);
    hide EncU32, ReadU32, Four, At;
    if present {
      U32RoundTrip(buf, off, v);
    }
  }

  lemma OptionalTime(present: bool, buf: bytes, off: nat, v: u64)
    requires At(buf, off, Part(present, Eight(v)))
    ensures Optional(present, ReadDateTime(buf, off), ZERO_TIME, off)
      == Ok(if present then DecodeDateTime(I64Of(v)) else ZERO_TIME, off + |Part(present, Eight(v))|)
  {
    EightIs(v);
    hide EncU64, ReadU64, Eight, At, DecodeDateTime, I64Of;
    if present {
      U64RoundTrip(buf, off, v);
    }
  }

  lemma OptionalPico(present: bool, buf: bytes, off: nat, v: u16)
    requires At(buf, off, Part(present, Two(v)))
    ensures Optional(present, ReadU16(buf, off), 0, off) == Ok(if present then v else 0, off + |Part(present, Two(v))|)
  {
    TwoIs(v);
    hide EncU16, ReadU16, Two, At;
    if present {
      U16RoundTrip(buf, off, v);
    }
  }

  lemma NoValueBit(mask: byte)
    ensures Has(mask, 0) <==> mask % 2 == 1
  {
  }
}
