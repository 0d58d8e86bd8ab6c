/**
 * What the bytes are, beyond reading back: the little-endian layout section 5.2.2
 * of OPC 10000-6 gives, and that the form chosen for a NodeId is the shortest any
 * reader would take for it.
 */
module Layout {
  import opened Prelude
  import opened Ints
  import opened Wire
  import opened NodeIds

  lemma FourBytes(v: u32)
    ensures EncU32(v).data == [v % 256, v / 256 % 256, v / 65536 % 256, v / 16777216]
  {
    var (b, c, d) := (v / 256, v / 65536, v / 16777216);
    assert b / 256 == c && c / 256 == d && d % 256 == d;
    assert LittleEndian(d, 1) == [d % 256];
    assert LittleEndian(c, 2) == [c % 256] + LittleEndian(d, 1);
    assert LittleEndian(b, 3) == [b % 256] + LittleEndian(c, 2);
    assert LittleEndian(v, 4) == [v % 256] + LittleEndian(b, 3);
  }

  lemma TwoBytes(v: u16)
    ensures EncU16(v).data == [v % 256, v / 256]
  {
    assert LittleEndian(v / 256, 1) == [v / 256 % 256];
  }

  /** The three numeric forms, byte by byte. */
  lemma NumericLayout(l: Limits, ns: u16, id: u32)
    requires l.Valid()
    ensures EncNodeId(l, Numeric(ns, id)).data
      == if ns == 0 && id < 0x100 then [0x00, id]
         else if ns < 0x100 && id < 0x1_0000 then [0x01, ns, id % 256, id / 256]
         else [0x02, ns % 256, ns / 256, id % 256, id / 256 % 256, id / 65536 % 256, id / 16777216]
  {
    hide EncU32, EncU16;
    TwoBytes(ns);
    FourBytes(id);
    if id < 0x1_0000 {
      TwoBytes(id);
    }
  }

  /** The first three fields of a Guid are little-endian; the eight bytes keep their order. */
  lemma GuidLayout(g: AGuid)
    ensures EncGuid(g).data
      == [g.data1 % 256, g.data1 / 256 % 256, g.data1 / 65536 % 256, g.data1 / 16777216,
          g.data2 % 256, g.data2 / 256, g.data3 % 256, g.data3 / 256] + g.data4
  {
    hide EncU32, EncU16;
    FourBytes(g.data1);
    TwoBytes(g.data2);
    TwoBytes(g.data3);
  }

  /** How long each identifier is on the wire, after the encoding byte. */
  lemma IdentifierSize(l: Limits, form: nat, buf: bytes, off: nat)
    requires l.Valid() && ReadIdentifier(l, form, buf, off).Ok?
    ensures var p := ReadIdentifier(l, form, buf, off);
      && !p.value.Undefined? && Form(p.value) == form && EncIdentifier(l, p.value).Written? && p.next - off == |EncIdentifier(l, p.value).data|
  {
    hide ReadU16, ReadU32, ReadGuid, EncU16, EncU32, EncGuid, ReadI32, EncI32;
  }

  /**
   * The writer's form is the shortest: whatever bytes a reader takes for a NodeId,
   * with or without flags, the writer's encoding of that NodeId is no longer.
   */
  lemma NodeIdFormIsShortest(l: Limits, buf: bytes, off: nat)
    requires l.Valid() && ReadNodeId(l, buf, off).Ok?
    ensures var p := ReadNodeId(l, buf, off); EncNodeId(l, p.value).Written? && |EncNodeId(l, p.value).data| <= p.next - off
  {
    hide ReadIdentifier, EncIdentifier, ReadU16, EncU16;
    var form := buf[off] % 0x40;
    if form > 1 {
      IdentifierSize(l, form, buf, off + 1);
    }
  }
}
