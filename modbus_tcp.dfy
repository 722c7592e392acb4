/** The MODBUS TCP/IP ADU layer: the 7-byte MBAP header of the MODBUS
    Messaging on TCP/IP Implementation Guide v1.0b (section 3.1.3) followed by
    the function code, reference number, bit count, byte count and one data
    byte, overlaid on the layer's bytes at fixed offsets. */
module ModbusTcp {
  import opened ByteOrder
  import opened Decimal
  import opened Layers

  /** sizeof(modbustcphdr): 2+2+2+1+1+2+2+1+1 packed bytes. */
  const HeaderLen: nat := 14

  /** The TCP port associated with MODBUS TCP/IP. */
  const ModbusTcpPort: uint16 := 502

  /** The members of modbustcphdr, in declaration order. */
  datatype Field =
    | TransactionIdentifier | ProtocolIdentifier | Length | UnitIdentifier | FunctionCode
    | ReferenceNumber | BitCount | ByteCount | Data

  /** Offset and width of each member in the packed struct. */
  function SpanOf(f: Field): Span {
    match f
    case TransactionIdentifier => Span(0, 2)
    case ProtocolIdentifier => Span(2, 2)
    case Length => Span(4, 2)
    case UnitIdentifier => Span(6, 1)
    case FunctionCode => Span(7, 1)
    case ReferenceNumber => Span(8, 2)
    case BitCount => Span(10, 2)
    case ByteCount => Span(12, 1)
    case Data => Span(13, 1)
  }

  const Layout: seq<Span> := [
    SpanOf(TransactionIdentifier), SpanOf(ProtocolIdentifier), SpanOf(Length),
    SpanOf(UnitIdentifier), SpanOf(FunctionCode), SpanOf(ReferenceNumber),
    SpanOf(BitCount), SpanOf(ByteCount), SpanOf(Data)]

  /** The members, in order, cover the header's 14 bytes without gap or
      overlap. */
  lemma LayoutTilesHeader()
    ensures Tiles(Layout, 0, HeaderLen)
  {
  }

  // ---------------------------------------------------------------------------
  // Field getters: reads of the header overlay, 16-bit members decoded with
  // htobe16 (the big-endian value of their bytes on any host, see
  // ByteOrder.FieldRead16AnyHost).
  // ---------------------------------------------------------------------------

  function GetTransactionIdentifier(buf: seq<uint8>): (r: uint16)
    requires |buf| >= HeaderLen
    ensures EncodeBE16(r) == buf[0..2]
  {
    EncodeBE16OfBE16(buf, 0);
    BE16(buf, 0)
  }

  /** Not read from the buffer: htobe16(0x00), which is 0 on every host. */
  function GetProtocolIdentifier(host: Endian): (r: uint16)
    ensures r == 0
  {
    HostToBE16(host, 0)
  }

  function GetLength(buf: seq<uint8>): (r: uint16)
    requires |buf| >= HeaderLen
    ensures EncodeBE16(r) == buf[4..6]
  {
    EncodeBE16OfBE16(buf, 4);
    BE16(buf, 4)
  }

  function GetUnitIdentifier(buf: seq<uint8>): uint8
    requires |buf| >= HeaderLen
  {
    buf[6]
  }

  function GetFunctionCode(buf: seq<uint8>): uint8
    requires |buf| >= HeaderLen
  {
    buf[7]
  }

  function GetReferenceNumber(buf: seq<uint8>): (r: uint16)
    requires |buf| >= HeaderLen
    ensures EncodeBE16(r) == buf[8..10]
  {
    EncodeBE16OfBE16(buf, 8);
    BE16(buf, 8)
  }

  function GetBitCount(buf: seq<uint8>): (r: uint16)
    requires |buf| >= HeaderLen
    ensures EncodeBE16(r) == buf[10..12]
  {
    EncodeBE16OfBE16(buf, 10);
    BE16(buf, 10)
  }

  function GetByteCount(buf: seq<uint8>): uint8
    requires |buf| >= HeaderLen
  {
    buf[12]
  }

  function GetData(buf: seq<uint8>): uint8
    requires |buf| >= HeaderLen
  {
    buf[13]
  }

  /** The getter of each member that is read from the buffer. */
  function FieldValue(buf: seq<uint8>, f: Field): nat
    requires |buf| >= HeaderLen && f != ProtocolIdentifier
  {
    match f
    case TransactionIdentifier => GetTransactionIdentifier(buf)
    case Length => GetLength(buf)
    case UnitIdentifier => GetUnitIdentifier(buf)
    case FunctionCode => GetFunctionCode(buf)
    case ReferenceNumber => GetReferenceNumber(buf)
    case BitCount => GetBitCount(buf)
    case ByteCount => GetByteCount(buf)
    case Data => GetData(buf)
  }

  /** Every getter other than the one of f reads the same value in both. */
  predicate OtherFieldsUnchanged(before: seq<uint8>, after: seq<uint8>, f: Field)
    requires |before| >= HeaderLen && |after| >= HeaderLen
  {
    forall g :: g != f && g != ProtocolIdentifier ==> FieldValue(after, g) == FieldValue(before, g)
  }

  /** The position of each member in Layout. */
  function LayoutIndex(f: Field): (k: nat)
    ensures k < |Layout| && Layout[k] == SpanOf(f)
  {
    match f
    case TransactionIdentifier => 0
    case ProtocolIdentifier => 1
    case Length => 2
    case UnitIdentifier => 3
    case FunctionCode => 4
    case ReferenceNumber => 5
    case BitCount => 6
    case ByteCount => 7
    case Data => 8
  }

  /** Distinct members occupy disjoint byte ranges. */
  lemma SpansDisjoint(f: Field, g: Field)
    requires f != g
    ensures SpanOf(f).End() <= SpanOf(g).offset || SpanOf(g).End() <= SpanOf(f).offset
  {
    LayoutTilesHeader();
    if LayoutIndex(f) < LayoutIndex(g) {
      TilesDisjoint(Layout, 0, HeaderLen, LayoutIndex(f), LayoutIndex(g));
    } else {
      TilesDisjoint(Layout, 0, HeaderLen, LayoutIndex(g), LayoutIndex(f));
    }
  }

  /** A getter reads its member's bytes and nothing else. */
  lemma FieldValueReadsItsSpan(a: seq<uint8>, b: seq<uint8>, g: Field)
    requires |a| >= HeaderLen && |b| >= HeaderLen && g != ProtocolIdentifier
    requires forall i :: SpanOf(g).offset <= i < SpanOf(g).End() ==> a[i] == b[i]
    ensures FieldValue(a, g) == FieldValue(b, g)
  {
    var s := SpanOf(g);
    assert a[s.offset] == b[s.offset];
    if s.length == 2 {
      assert a[s.offset + 1] == b[s.offset + 1];
    }
  }

  /** Rewriting the bytes of one member changes no other getter. */
  lemma SpliceKeepsOtherFields(buf: seq<uint8>, f: Field, bytes: seq<uint8>)
    requires |buf| >= HeaderLen && |bytes| == SpanOf(f).length
    ensures OtherFieldsUnchanged(buf, Splice(buf, SpanOf(f).offset, bytes), f)
  {
    var r := Splice(buf, SpanOf(f).offset, bytes);
    forall g | g != f && g != ProtocolIdentifier
      ensures FieldValue(r, g) == FieldValue(buf, g)
    {
      SpansDisjoint(f, g);
      FieldValueReadsItsSpan(r, buf, g);
    }
  }

  // ---------------------------------------------------------------------------
  // Writing members
  // ---------------------------------------------------------------------------

  /** The effect of a 16-bit setter as the source has it: the raw host value
      is stored, with no htobe16. Reading the member back gives the value on a
      big-endian host and its byte swap on a little-endian one. */
  function WithHostField16(host: Endian, buf: seq<uint8>, f: Field, v: uint16): (r: seq<uint8>)
    requires |buf| >= HeaderLen && f != ProtocolIdentifier && SpanOf(f).length == 2
    ensures |r| == |buf|
    ensures FieldValue(r, f) == if host.BigEndian? then v else Swap16(v)
    ensures OtherFieldsUnchanged(buf, r, f)
    ensures forall i :: 0 <= i < |buf| && !(SpanOf(f).offset <= i < SpanOf(f).End()) ==> r[i] == buf[i]
  {
    var r := Splice(buf, SpanOf(f).offset, HostBytes16(host, v));
    SpliceKeepsOtherFields(buf, f, HostBytes16(host, v));
    EncodeBE16OfBE16(HostBytes16(host, v), 0);
    assert HostBytes16(host, v)[0..2] == HostBytes16(host, v);
    r
  }

  /** The effect of a 16-bit setter with the htobe16 conversion the
      constructor applies: the member reads back as exactly v. */
  function WithField16(buf: seq<uint8>, f: Field, v: uint16): (r: seq<uint8>)
    requires |buf| >= HeaderLen && f != ProtocolIdentifier && SpanOf(f).length == 2
    ensures |r| == |buf| && FieldValue(r, f) == v
    ensures OtherFieldsUnchanged(buf, r, f)
    ensures forall i :: 0 <= i < |buf| && !(SpanOf(f).offset <= i < SpanOf(f).End()) ==> r[i] == buf[i]
  {
    SpliceKeepsOtherFields(buf, f, EncodeBE16(v));
    Splice(buf, SpanOf(f).offset, EncodeBE16(v))
  }

  /** The corrected setter is the source's setter applied to htobe16(v). */
  lemma WithField16IsHostStoreOfBE(host: Endian, buf: seq<uint8>, f: Field, v: uint16)
    requires |buf| >= HeaderLen && f != ProtocolIdentifier && SpanOf(f).length == 2
    ensures WithField16(buf, f, v) == WithHostField16(host, buf, f, HostToBE16(host, v))
  {
  }

  /** The effect of an 8-bit setter: the byte is stored as given, so it reads
      back as v on any host. */
  function WithField8(buf: seq<uint8>, f: Field, v: uint8): (r: seq<uint8>)
    requires |buf| >= HeaderLen && SpanOf(f).length == 1
    ensures |r| == |buf| && FieldValue(r, f) == v
    ensures OtherFieldsUnchanged(buf, r, f)
    ensures forall i :: 0 <= i < |buf| && !(SpanOf(f).offset <= i < SpanOf(f).End()) ==> r[i] == buf[i]
  {
    SpliceKeepsOtherFields(buf, f, [v]);
    Splice(buf, SpanOf(f).offset, [v])
  }

  /** On a little-endian host a 16-bit setter followed by its getter swaps the
      bytes: setting the transaction identifier to 0x1234 reads back 0x3412. */
  lemma SetterSwapsOnLittleEndian(buf: seq<uint8>)
    requires |buf| >= HeaderLen
    ensures GetTransactionIdentifier(WithHostField16(LittleEndian, buf, TransactionIdentifier, 0x1234)) == 0x3412
  {
    var r := WithHostField16(LittleEndian, buf, TransactionIdentifier, 0x1234);
    assert FieldValue(r, TransactionIdentifier) == Swap16(0x1234);
  }

  /** On a little-endian host a 16-bit setter round-trips exactly the values
      whose two bytes are equal; on a big-endian host it always does. */
  lemma SetterRoundTrip(host: Endian, buf: seq<uint8>, f: Field, v: uint16)
    requires |buf| >= HeaderLen && f != ProtocolIdentifier && SpanOf(f).length == 2
    ensures FieldValue(WithHostField16(host, buf, f, v), f) == v
            <==> host.BigEndian? || v / 0x100 == v % 0x100
  {
    Swap16FixedPoints(v);
  }

  /** The header the building constructor lays down: 16-bit members through
      htobe16, the protocol identifier 0, byte members as given. */
  function BuiltHeader(transactionIdentifier: uint16, length: uint16, unitIdentifier: uint8,
                       functionCode: uint8, referenceNumber: uint16, bitCount: uint16,
                       byteCount: uint8, data: uint8): (r: seq<uint8>)
    ensures |r| == HeaderLen && r[2..4] == [0, 0]
    ensures GetTransactionIdentifier(r) == transactionIdentifier && GetLength(r) == length
    ensures GetUnitIdentifier(r) == unitIdentifier && GetFunctionCode(r) == functionCode
    ensures GetReferenceNumber(r) == referenceNumber && GetBitCount(r) == bitCount
    ensures GetByteCount(r) == byteCount && GetData(r) == data
  {
    var t, l := EncodeBE16(transactionIdentifier), EncodeBE16(length);
    var rn, b := EncodeBE16(referenceNumber), EncodeBE16(bitCount);
    var r := [t[0], t[1], 0, 0, l[0], l[1], unitIdentifier, functionCode, rn[0], rn[1], b[0], b[1], byteCount, data];
    assert r[0..2] == t && r[4..6] == l && r[8..10] == rn && r[10..12] == b;
    r
  }

  // ---------------------------------------------------------------------------
  // Classification
  // ---------------------------------------------------------------------------

  /** isModbusTcpPort: either endpoint uses port 502. */
  predicate IsModbusTcpPort(portSrc: uint16, portDst: uint16) {
    portSrc == ModbusTcpPort || portDst == ModbusTcpPort
  }

  lemma ModbusTcpPortSymmetric(portSrc: uint16, portDst: uint16)
    ensures IsModbusTcpPort(portSrc, portDst) == IsModbusTcpPort(portDst, portSrc)
    ensures IsModbusTcpPort(portSrc, portDst) <==> ModbusTcpPort in {portSrc, portDst}
  {
  }

  /** isDataValid: the data is non-null and holds at least a
      header. The content is not inspected. */
  predicate IsDataValid(data: Option<seq<uint8>>, dataSize: nat) {
    data.Some? && dataSize >= HeaderLen
  }

  lemma IsDataValidOnlyChecksSize(data: Option<seq<uint8>>, dataSize: nat)
    ensures dataSize < HeaderLen ==> !IsDataValid(data, dataSize)
    ensures forall other: seq<uint8> :: data.Some? ==> IsDataValid(Some(other), dataSize) == IsDataValid(data, dataSize)
  {
  }

  // ---------------------------------------------------------------------------
  // Summary
  // ---------------------------------------------------------------------------

  const SummaryHead: string := "MODBUS TCP/ IP ADU Layer, "

  const SummaryLabels: seq<string> := [
    "transaction identifier: ", ", length: ", ", unit identifier: ", ", function code: ",
    ", reference number: ", ", bit count: ", ", byte count: ", ", data: "]

  function SummaryValues(buf: seq<uint8>): (r: seq<nat>)
    requires |buf| >= HeaderLen
    ensures |r| == |SummaryLabels|
  {
    [GetTransactionIdentifier(buf), GetLength(buf), GetUnitIdentifier(buf), GetFunctionCode(buf),
     GetReferenceNumber(buf), GetBitCount(buf), GetByteCount(buf), GetData(buf)]
  }

  /** toString: every member but the protocol identifier, in decimal. */
  function ToString(buf: seq<uint8>): string
    requires |buf| >= HeaderLen
  {
    "MODBUS TCP/ IP ADU Layer, "
    + "transaction identifier: " + NatToDecimal(GetTransactionIdentifier(buf))
    + ", length: " + NatToDecimal(GetLength(buf))
    + ", unit identifier: " + NatToDecimal(GetUnitIdentifier(buf))
    + ", function code: " + NatToDecimal(GetFunctionCode(buf))
    + ", reference number: " + NatToDecimal(GetReferenceNumber(buf))
    + ", bit count: " + NatToDecimal(GetBitCount(buf))
    + ", byte count: " + NatToDecimal(GetByteCount(buf))
    + ", data: " + NatToDecimal(GetData(buf))
  }

  /** The summary is the head followed by one "label value" pair per shown
      member, in the order of SummaryLabels. */
  lemma ToStringIsRender(buf: seq<uint8>)
    requires |buf| >= HeaderLen
    ensures ToString(buf) == Render(SummaryHead, SummaryLabels, SummaryValues(buf))
  {
    var h, l := SummaryHead, SummaryLabels;
    var v := SummaryValues(buf);
    RenderSnoc(h, [], [], l[0], v[0]);
    RenderSnoc(h, l[..1], v[..1], l[1], v[1]);
    RenderSnoc(h, l[..2], v[..2], l[2], v[2]);
    RenderSnoc(h, l[..3], v[..3], l[3], v[3]);
    RenderSnoc(h, l[..4], v[..4], l[4], v[4]);
    RenderSnoc(h, l[..5], v[..5], l[5], v[5]);
    RenderSnoc(h, l[..6], v[..6], l[6], v[6]);
    RenderSnoc(h, l[..7], v[..7], l[7], v[7]);
    assert l[..1] == [] + [l[0]] && v[..1] == [] + [v[0]];
    assert l[..2] == l[..1] + [l[1]] && v[..2] == v[..1] + [v[1]];
    assert l[..3] == l[..2] + [l[2]] && v[..3] == v[..2] + [v[2]];
    assert l[..4] == l[..3] + [l[3]] && v[..4] == v[..3] + [v[3]];
    assert l[..5] == l[..4] + [l[4]] && v[..5] == v[..4] + [v[4]];
    assert l[..6] == l[..5] + [l[5]] && v[..6] == v[..5] + [v[5]];
    assert l[..7] == l[..6] + [l[6]] && v[..7] == v[..6] + [v[6]];
    assert l == l[..7] + [l[7]] && v == v[..7] + [v[7]];
  }

  /** Equal summaries come from headers that agree on every member they
      show. */
  lemma ToStringInjective(a: seq<uint8>, b: seq<uint8>)
    requires |a| >= HeaderLen && |b| >= HeaderLen && ToString(a) == ToString(b)
    ensures a[0..2] == b[0..2] && a[4..HeaderLen] == b[4..HeaderLen]
  {
    assert SummaryValues(a) == SummaryValues(b) by {
      ToStringIsRender(a);
      ToStringIsRender(b);
      RenderInjective(SummaryHead, SummaryHead, SummaryLabels, SummaryValues(a), SummaryValues(b));
    }
    SummaryValuesDetermineHeader(a, b);
  }

  /** The shown values pin down every byte but the protocol identifier's. */
  lemma SummaryValuesDetermineHeader(a: seq<uint8>, b: seq<uint8>)
    requires |a| >= HeaderLen && |b| >= HeaderLen && SummaryValues(a) == SummaryValues(b)
    ensures a[0..2] == b[0..2] && a[4..HeaderLen] == b[4..HeaderLen]
  {
    var va, vb := SummaryValues(a), SummaryValues(b);
    assert GetTransactionIdentifier(a) == va[0] == vb[0] == GetTransactionIdentifier(b);
    assert GetLength(a) == va[1] == vb[1] == GetLength(b);
    assert GetReferenceNumber(a) == va[4] == vb[4] == GetReferenceNumber(b);
    assert GetBitCount(a) == va[5] == vb[5] == GetBitCount(b);
    assert a[6] == va[2] == vb[2] == b[6] && a[7] == va[3] == vb[3] == b[7];
    assert a[12] == va[6] == vb[6] == b[12] && a[13] == va[7] == vb[7] == b[13];
    assert a[4..6] == b[4..6] && a[8..10] == b[8..10] && a[10..12] == b[10..12];
    forall i | 4 <= i < HeaderLen
      ensures a[i] == b[i]
    {
      if i < 6 {
        assert a[i] == a[4..6][i - 4] && b[i] == b[4..6][i - 4];
      } else if 8 <= i < 10 {
        assert a[i] == a[8..10][i - 8] && b[i] == b[8..10][i - 8];
      } else if 10 <= i < 12 {
        assert a[i] == a[10..12][i - 10] && b[i] == b[10..12][i - 10];
      }
    }
  }

  /** Headers that agree outside the protocol identifier's bytes have the
      same summary. */
  lemma ToStringIgnoresProtocolIdentifier(a: seq<uint8>, b: seq<uint8>)
    requires |a| >= HeaderLen && |b| >= HeaderLen
    requires a[0..2] == b[0..2] && a[4..HeaderLen] == b[4..HeaderLen]
    ensures ToString(a) == ToString(b)
  {
    forall i | 0 <= i < HeaderLen && i != 2 && i != 3
      ensures a[i] == b[i]
    {
      if i < 2 {
        assert a[i] == a[0..2][i];
      } else {
        assert a[i] == a[4..HeaderLen][i - 4] && b[i] == b[4..HeaderLen][i - 4];
      }
    }
  }

  /** Two headers have the same summary exactly when they agree on every
      byte except the protocol identifier's: the summary shows each of those
      members and nothing else. */
  lemma ToStringDeterminesHeader(a: seq<uint8>, b: seq<uint8>)
    requires |a| >= HeaderLen && |b| >= HeaderLen
    ensures ToString(a) == ToString(b) <==> a[0..2] == b[0..2] && a[4..HeaderLen] == b[4..HeaderLen]
  {
    if ToString(a) == ToString(b) {
      ToStringInjective(a, b);
    }
    if a[0..2] == b[0..2] && a[4..HeaderLen] == b[4..HeaderLen] {
      ToStringIgnoresProtocolIdentifier(a, b);
    }
  }

  /** The captured ADU of the test suite, whatever its protocol identifier
      bytes hold: its members and its summary. */
  lemma CapturedAdu(p0: uint8, p1: uint8)
    ensures var buf := [0x57, 0xDE, p0, p1, 0x00, 0x08, 0xFF, 0x0F, 0x00, 0x05, 0x00, 0x01, 0x01, 0x00];
      && GetTransactionIdentifier(buf) == 0x57DE && GetLength(buf) == 8
      && GetUnitIdentifier(buf) == 0xFF && GetFunctionCode(buf) == 0x0F
      && GetReferenceNumber(buf) == 5 && GetBitCount(buf) == 1
      && GetByteCount(buf) == 1 && GetData(buf) == 0
      && ToString(buf) == "MODBUS TCP/ IP ADU Layer, " + "transaction identifier: " + "22494" + ", length: " + "8"
                          + ", unit identifier: " + "255" + ", function code: " + "15" + ", reference number: " + "5"
                          + ", bit count: " + "1" + ", byte count: " + "1" + ", data: " + "0"
  {
    var buf := [0x57, 0xDE, p0, p1, 0x00, 0x08, 0xFF, 0x0F, 0x00, 0x05, 0x00, 0x01, 0x01, 0x00];
    assert GetTransactionIdentifier(buf) == 22494 && GetLength(buf) == 8 && GetReferenceNumber(buf) == 5;
    assert NatToDecimal(22494) == "22494" && NatToDecimal(255) == "255" && NatToDecimal(15) == "15";
    assert NatToDecimal(8) == "8" && NatToDecimal(5) == "5" && NatToDecimal(1) == "1" && NatToDecimal(0) == "0";
  }

  // ---------------------------------------------------------------------------
  // The layer object
  // ---------------------------------------------------------------------------

  class ModbusTcpLayer {
    /** m_Data; m_DataLen is data.Length. */
    var data: array<uint8>
    /** m_Protocol. */
    var protocol: ProtocolType
    /** Where m_NextLayer's bytes lie within data, if it was created. */
    var nextLayer: Option<Span>

    /** Decoding path: a view over existing bytes, tagged MODBUSTCP. */
    constructor FromRawData(rawData: array<uint8>)
      ensures this.data == rawData && protocol == MODBUSTCP && nextLayer == None
    {
      this.data := rawData;
      protocol := MODBUSTCP;
      nextLayer := None;
    }

    /** Building path: a fresh zero-filled header written member by member.
        A 16-bit member is stored through htobe16, which lays down its
        network-order bytes on either host (ByteOrder.HostToBE16). */
    constructor (transactionIdentifier: uint16, length: uint16, unitIdentifier: uint8,
                 functionCode: uint8, referenceNumber: uint16, bitCount: uint16, byteCount: uint8,
                 data: uint8)
      ensures fresh(this.data)
      ensures this.data[..] == BuiltHeader(transactionIdentifier, length, unitIdentifier, functionCode,
                                           referenceNumber, bitCount, byteCount, data)
      ensures protocol == MODBUSTCP && nextLayer == None
    {
      var buf := new uint8[HeaderLen](_ => 0);
      var t := EncodeBE16(transactionIdentifier);
      buf[0], buf[1] := t[0], t[1];
      buf[2], buf[3] := 0, 0;
      var l := EncodeBE16(length);
      buf[4], buf[5] := l[0], l[1];
      buf[6] := unitIdentifier;
      buf[7] := functionCode;
      var r := EncodeBE16(referenceNumber);
      buf[8], buf[9] := r[0], r[1];
      var b := EncodeBE16(bitCount);
      buf[10], buf[11] := b[0], b[1];
      buf[12] := byteCount;
      buf[13] := data;
      this.data := buf;
      protocol := MODBUSTCP;
      nextLayer := None;
    }

    // The 16-bit setters below store htobe16 of their argument, which on
    // either host lays down its network-order bytes (ByteOrder.HostToBE16),
    // so that the getter reads it back. The source stores the raw host value
    // instead; WithHostField16 models that store and SetterSwapsOnLittleEndian
    // shows what it does on a little-endian host.

    method SetTransactionIdentifier(transactionIdentifier: uint16)
      requires data.Length >= HeaderLen
      modifies data
      ensures data[..] == WithField16(old(data[..]), TransactionIdentifier, transactionIdentifier)
    {
      Store(data, 0, EncodeBE16(transactionIdentifier));
    }

    method SetLength(length: uint16)
      requires data.Length >= HeaderLen
      modifies data
      ensures data[..] == WithField16(old(data[..]), Length, length)
    {
      Store(data, 4, EncodeBE16(length));
    }

    method SetUnitIdentifier(unitIdentifier: uint8)
      requires data.Length >= HeaderLen
      modifies data
      ensures data[..] == WithField8(old(data[..]), UnitIdentifier, unitIdentifier)
    {
      Store(data, 6, [unitIdentifier]);
    }

    method SetFunctionCode(functionCode: uint8)
      requires data.Length >= HeaderLen
      modifies data
      ensures data[..] == WithField8(old(data[..]), FunctionCode, functionCode)
    {
      Store(data, 7, [functionCode]);
    }

    method SetReferenceNumber(referenceNumber: uint16)
      requires data.Length >= HeaderLen
      modifies data
      ensures data[..] == WithField16(old(data[..]), ReferenceNumber, referenceNumber)
    {
      Store(data, 8, EncodeBE16(referenceNumber));
    }

    method SetBitCount(bitCount: uint16)
      requires data.Length >= HeaderLen
      modifies data
      ensures data[..] == WithField16(old(data[..]), BitCount, bitCount)
    {
      Store(data, 10, EncodeBE16(bitCount));
    }

    method SetByteCount(byteCount: uint8)
      requires data.Length >= HeaderLen
      modifies data
      ensures data[..] == WithField8(old(data[..]), ByteCount, byteCount)
    {
      Store(data, 12, [byteCount]);
    }

    method SetData(data': uint8)
      requires data.Length >= HeaderLen
      modifies data
      ensures data[..] == WithField8(old(data[..]), Data, data')
    {
      Store(data, 13, [data']);
    }

    /** computeCalculateFields: nothing to compute for this layer. */
    method ComputeCalculateFields()
      ensures unchanged(data)
    {
    }

    /** parseNextLayer: the bytes after the header, if any, become the
        successor; otherwise nothing is created. */
    method ParseNextLayer()
      modifies this`nextLayer
      ensures PayloadAfter(data.Length, HeaderLen).Some? ==> nextLayer == PayloadAfter(data.Length, HeaderLen)
      ensures PayloadAfter(data.Length, HeaderLen).None? ==> nextLayer == old(nextLayer)
    {
      if data.Length <= HeaderLen {
        return;
      }
      nextLayer := Some(Span(HeaderLen, data.Length - HeaderLen));
    }
  }
}
