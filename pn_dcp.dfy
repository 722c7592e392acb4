/** The PROFINET PN-DCP layer: the 12-byte DCP header of IEC 61158-6-10
    (frame identifier, service identifier, service type, transaction
    identifier, response delay, DCP data length) overlaid on the layer's
    bytes at fixed offsets, with the frame-identifier signature that
    classification checks. */
module PnDcp {
  import opened ByteOrder
  import opened Decimal
  import opened Layers

  /** sizeof(pndcphdr): 2+1+1+4+2+2 packed bytes. */
  const HeaderLen: nat := 12

  /** The first byte of every frame identifier classification accepts. */
  const SignatureHigh: uint8 := 0xfe

  /** The second bytes of the accepted frame identifiers (FE FD, FE FE,
      FE FF). */
  const SignatureLow: set<uint8> := {0xfd, 0xfe, 0xff}

  /** The members of pndcphdr, in declaration order. */
  datatype Field = FrameId | ServiceId | ServiceType | Xid | ResponseDelay | DcpDataLength

  /** Offset and width of each member in the packed struct. */
  function SpanOf(f: Field): Span {
    match f
    case FrameId => Span(0, 2)
    case ServiceId => Span(2, 1)
    case ServiceType => Span(3, 1)
    case Xid => Span(4, 4)
    case ResponseDelay => Span(8, 2)
    case DcpDataLength => Span(10, 2)
  }

  const Layout: seq<Span> := [
    SpanOf(FrameId), SpanOf(ServiceId), SpanOf(ServiceType), SpanOf(Xid), SpanOf(ResponseDelay),
    SpanOf(DcpDataLength)]

  /** The members, in order, cover the header's 12 bytes without gap or
      overlap. */
  lemma LayoutTilesHeader()
    ensures Tiles(Layout, 0, HeaderLen)
  {
  }

  // ---------------------------------------------------------------------------
  // Field getters: byte members read as they are, the wider members decoded
  // with htobe16 / htobe32 (the big-endian value of their bytes on any host,
  // see ByteOrder.FieldRead16AnyHost and ByteOrder.FieldRead32AnyHost).
  // ---------------------------------------------------------------------------

  function GetFrameId(buf: seq<uint8>): (r: uint16)
    requires |buf| >= HeaderLen
    ensures EncodeBE16(r) == buf[0..2]
  {
    EncodeBE16OfBE16(buf, 0);
    BE16(buf, 0)
  }

  function GetServiceId(buf: seq<uint8>): uint8
    requires |buf| >= HeaderLen
  {
    buf[2]
  }

  function GetServiceType(buf: seq<uint8>): uint8
    requires |buf| >= HeaderLen
  {
    buf[3]
  }

  function GetXid(buf: seq<uint8>): (r: uint32)
    requires |buf| >= HeaderLen
    ensures EncodeBE32(r) == buf[4..8]
  {
    EncodeBE32OfBE32(buf, 4);
    BE32(buf, 4)
  }

  function GetResponseDelay(buf: seq<uint8>): (r: uint16)
    requires |buf| >= HeaderLen
    ensures EncodeBE16(r) == buf[8..10]
  {
    EncodeBE16OfBE16(buf, 8);
    BE16(buf, 8)
  }

  function GetDcpDataLength(buf: seq<uint8>): (r: uint16)
    requires |buf| >= HeaderLen
    ensures EncodeBE16(r) == buf[10..12]
  {
    EncodeBE16OfBE16(buf, 10);
    BE16(buf, 10)
  }

  // ---------------------------------------------------------------------------
  // Classification
  // ---------------------------------------------------------------------------

  /** isDataValid as written, over a buffer of dataSize bytes: the signature
      bytes are read before the size is compared, left to right with
      short-circuit evaluation. None stands for a read past the end of the
      buffer. */
  function IsDataValidAsWritten(data: Option<seq<uint8>>, dataSize: nat): (r: Option<bool>)
    requires data.Some? ==> |data.value| == dataSize
    ensures r.None? <==> data.Some? && (dataSize == 0 || (dataSize == 1 && data.value[0] == SignatureHigh))
    ensures r.Some? ==> r.value == IsDataValid(data, dataSize)
  {
    if data.None? then Some(false)
    else if dataSize < 1 then None
    else if data.value[0] != SignatureHigh then Some(false)
    else if dataSize < 2 then None
    else Some(data.value[1] in SignatureLow && dataSize >= HeaderLen)
  }

  /** isDataValid with the size compared first: the buffer is present, holds
      a header, and starts with one of the accepted frame identifiers. */
  predicate IsDataValid(data: Option<seq<uint8>>, dataSize: nat)
    requires data.Some? ==> |data.value| == dataSize
  {
    data.Some? && dataSize >= HeaderLen && data.value[0] == SignatureHigh && data.value[1] in SignatureLow
  }

  /** An empty buffer, and a one-byte buffer holding the signature's first
      byte, are read past their end. */
  lemma AsWrittenReadsPastEnd()
    ensures IsDataValidAsWritten(Some([]), 0).None?
    ensures IsDataValidAsWritten(Some([SignatureHigh]), 1).None?
  {
  }

  /** A buffer that does not start with FE FD, FE FE or FE FF is rejected
      whatever its length. */
  lemma WrongSignatureRejected(data: seq<uint8>)
    requires |data| >= 2 && !(data[0] == SignatureHigh && data[1] in SignatureLow)
    ensures !IsDataValid(Some(data), |data|)
    ensures IsDataValidAsWritten(Some(data), |data|) == Some(false)
  {
  }

  /** A buffer shorter than the header is rejected, whatever it holds. */
  lemma ShortBufferRejected(data: seq<uint8>)
    requires |data| < HeaderLen
    ensures !IsDataValid(Some(data), |data|)
  {
  }

  /** Exactly the buffers of at least a header that carry an accepted frame
      identifier pass, and their frame identifier is 0xfefd, 0xfefe or
      0xfeff. */
  lemma IsDataValidExactly(data: seq<uint8>)
    ensures IsDataValid(Some(data), |data|)
            <==> |data| >= HeaderLen && GetFrameId(data[..HeaderLen]) in {0xfefd, 0xfefe, 0xfeff}
  {
    if |data| >= HeaderLen {
      var h := data[..HeaderLen];
      assert h[0] == data[0] && h[1] == data[1];
      var f := GetFrameId(h);
      assert EncodeBE16(f) == [data[0], data[1]];
      if f in {0xfefd, 0xfefe, 0xfeff} {
        assert EncodeBE16(f)[0] == SignatureHigh && EncodeBE16(f)[1] in SignatureLow;
      }
    }
  }

  // ---------------------------------------------------------------------------
  // Summary
  // ---------------------------------------------------------------------------

  const SummaryHead: string := "PN-DCP Layer, "

  const SummaryLabels: seq<string> := [
    "frame id: ", ", service id: ", ", service type: ", ", xid: ", ", response delay: ",
    ", DPC data length: "]

  function SummaryValues(buf: seq<uint8>): (r: seq<nat>)
    requires |buf| >= HeaderLen
    ensures |r| == |SummaryLabels|
  {
    [GetFrameId(buf), GetServiceId(buf), GetServiceType(buf), GetXid(buf), GetResponseDelay(buf),
     GetDcpDataLength(buf)]
  }

  /** toString: every member in decimal, after the layer name. */
  function ToString(buf: seq<uint8>): string
    requires |buf| >= HeaderLen
  {
    "PN-DCP Layer, "
    + "frame id: " + NatToDecimal(GetFrameId(buf))
    + ", service id: " + NatToDecimal(GetServiceId(buf))
    + ", service type: " + NatToDecimal(GetServiceType(buf))
    + ", xid: " + NatToDecimal(GetXid(buf))
    + ", response delay: " + NatToDecimal(GetResponseDelay(buf))
    + ", DPC data length: " + NatToDecimal(GetDcpDataLength(buf))
  }

  /** The summary is the head followed by one "label value" pair per member,
      in the order of SummaryLabels. */
  lemma ToStringIsRender(buf: seq<uint8>)
    requires |buf| >= HeaderLen
    ensures ToString(buf) == Render(SummaryHead, SummaryLabels, SummaryValues(buf))
  {
    var h, l := SummaryHead, SummaryLabels;
    var v := SummaryValues(buf);
    RenderSnoc(h, [], [], l[0], v[0]);
    RenderSnoc(h, l[..1], v[..1], l[1], v[1]);
    RenderSnoc(h, l[..2], v[..2], l[2], v[2]);
    RenderSnoc(h, l[..3], v[..3], l[3], v[3]);
    RenderSnoc(h, l[..4], v[..4], l[4], v[4]);
    RenderSnoc(h, l[..5], v[..5], l[5], v[5]);
    assert l[..1] == [] + [l[0]] && v[..1] == [] + [v[0]];
    assert l[..2] == l[..1] + [l[1]] && v[..2] == v[..1] + [v[1]];
    assert l[..3] == l[..2] + [l[2]] && v[..3] == v[..2] + [v[2]];
    assert l[..4] == l[..3] + [l[3]] && v[..4] == v[..3] + [v[3]];
    assert l[..5] == l[..4] + [l[4]] && v[..5] == v[..4] + [v[4]];
    assert l == l[..5] + [l[5]] && v == v[..5] + [v[5]];
  }

  /** The shown values pin down every header byte. */
  lemma SummaryValuesDetermineHeader(a: seq<uint8>, b: seq<uint8>)
    requires |a| >= HeaderLen && |b| >= HeaderLen && SummaryValues(a) == SummaryValues(b)
    ensures a[..HeaderLen] == b[..HeaderLen]
  {
    var va, vb := SummaryValues(a), SummaryValues(b);
    assert GetFrameId(a) == va[0] == vb[0] == GetFrameId(b);
    assert GetXid(a) == va[3] == vb[3] == GetXid(b);
    assert GetResponseDelay(a) == va[4] == vb[4] == GetResponseDelay(b);
    assert GetDcpDataLength(a) == va[5] == vb[5] == GetDcpDataLength(b);
    assert a[2] == va[1] == vb[1] == b[2] && a[3] == va[2] == vb[2] == b[3];
    assert a[0..2] == b[0..2] && a[4..8] == b[4..8] && a[8..10] == b[8..10] && a[10..12] == b[10..12];
    forall i | 0 <= i < HeaderLen
      ensures a[i] == b[i]
    {
      if i < 2 {
        assert a[i] == a[0..2][i] && b[i] == b[0..2][i];
      } else if 4 <= i < 8 {
        assert a[i] == a[4..8][i - 4] && b[i] == b[4..8][i - 4];
      } else if 8 <= i < 10 {
        assert a[i] == a[8..10][i - 8] && b[i] == b[8..10][i - 8];
      } else if 10 <= i {
        assert a[i] == a[10..12][i - 10] && b[i] == b[10..12][i - 10];
      }
    }
  }

  /** Equal summaries come from byte-for-byte equal headers. */
  lemma ToStringInjective(a: seq<uint8>, b: seq<uint8>)
    requires |a| >= HeaderLen && |b| >= HeaderLen && ToString(a) == ToString(b)
    ensures a[..HeaderLen] == b[..HeaderLen]
  {
    assert SummaryValues(a) == SummaryValues(b) by {
      ToStringIsRender(a);
      ToStringIsRender(b);
      RenderInjective(SummaryHead, SummaryHead, SummaryLabels, SummaryValues(a), SummaryValues(b));
    }
    SummaryValuesDetermineHeader(a, b);
  }

  /** The summary depends on the header bytes only. */
  lemma ToStringReadsHeaderOnly(a: seq<uint8>, b: seq<uint8>)
    requires |a| >= HeaderLen && |b| >= HeaderLen && a[..HeaderLen] == b[..HeaderLen]
    ensures ToString(a) == ToString(b)
  {
    assert a[0..2] == a[..HeaderLen][0..2] && b[0..2] == b[..HeaderLen][0..2];
    assert a[4..8] == a[..HeaderLen][4..8] && b[4..8] == b[..HeaderLen][4..8];
    assert a[8..10] == a[..HeaderLen][8..10] && b[8..10] == b[..HeaderLen][8..10];
    assert a[10..12] == a[..HeaderLen][10..12] && b[10..12] == b[..HeaderLen][10..12];
    assert a[2] == a[..HeaderLen][2] && a[3] == a[..HeaderLen][3];
    assert b[2] == b[..HeaderLen][2] && b[3] == b[..HeaderLen][3];
  }

  /** Two headers have the same summary exactly when they are byte for byte
      the same: the summary shows every member. */
  lemma ToStringDeterminesHeader(a: seq<uint8>, b: seq<uint8>)
    requires |a| >= HeaderLen && |b| >= HeaderLen
    ensures ToString(a) == ToString(b) <==> a[..HeaderLen] == b[..HeaderLen]
  {
    if ToString(a) == ToString(b) {
      ToStringInjective(a, b);
    }
    if a[..HeaderLen] == b[..HeaderLen] {
      ToStringReadsHeaderOnly(a, b);
    }
  }

  /** The captured frame of the test suite. */
  const CapturedBytes: seq<uint8> := [0xFE, 0xFE, 0x05, 0x00, 0x01, 0x00, 0x00, 0x01, 0x00, 0x01, 0x00, 0x04]

  /** The captured frame passes classification and its members read as the
      test expects. */
  lemma CapturedFrame()
    ensures IsDataValid(Some(CapturedBytes), |CapturedBytes|)
    ensures GetFrameId(CapturedBytes) == 65278 && GetServiceId(CapturedBytes) == 5
    ensures GetServiceType(CapturedBytes) == 0 && GetXid(CapturedBytes) == 16777217
    ensures GetResponseDelay(CapturedBytes) == 1 && GetDcpDataLength(CapturedBytes) == 4
  {
  }

  /** The captured frame's summary. */
  lemma CapturedFrameSummary()
    ensures ToString(CapturedBytes)
            == "PN-DCP Layer, " + "frame id: " + "65278" + ", service id: " + "5" + ", service type: " + "0"
               + ", xid: " + "16777217" + ", response delay: " + "1" + ", DPC data length: " + "4"
  {
    CapturedFrame();
    assert NatToDecimal(65278) == "65278" && NatToDecimal(16777217) == "16777217";
    assert NatToDecimal(5) == "5" && NatToDecimal(0) == "0" && NatToDecimal(1) == "1" && NatToDecimal(4) == "4";
  }

  // ---------------------------------------------------------------------------
  // Construction
  // ---------------------------------------------------------------------------

  /** The header the building constructor lays down as written: frame
      identifier through htobe16, service identifier and type stored, the
      transaction identifier left at 0, response delay and DCP data length
      stored in host order with no htobe16. */
  function AsWrittenHeader(host: Endian, frameId: uint16, serviceId: uint8, serviceType: uint8, xid: uint32,
                           responseDelay: uint16, dcpDataLength: uint16): (r: seq<uint8>)
    ensures |r| == HeaderLen
    ensures GetFrameId(r) == frameId && GetServiceId(r) == serviceId && GetServiceType(r) == serviceType
    ensures GetXid(r) == 0
    ensures GetResponseDelay(r) == if host.BigEndian? then responseDelay else Swap16(responseDelay)
    ensures GetDcpDataLength(r) == if host.BigEndian? then dcpDataLength else Swap16(dcpDataLength)
  {
    var r := HostBytes16(host, HostToBE16(host, frameId)) + [serviceId, serviceType, 0, 0, 0, 0]
      + HostBytes16(host, responseDelay) + HostBytes16(host, dcpDataLength);
    assert r[0..2] == EncodeBE16(frameId) && r[4..8] == [0, 0, 0, 0];
    assert r[8..10] == HostBytes16(host, responseDelay) && r[10..12] == HostBytes16(host, dcpDataLength);
    EncodeBE32OfBE32(r, 4);
    EncodeBE16OfBE16(r, 8);
    EncodeBE16OfBE16(r, 10);
    r
  }

  /** The header the building constructor is meant to lay down: every
      argument in its member in network order, so every getter returns its
      argument. */
  function BuiltHeader(frameId: uint16, serviceId: uint8, serviceType: uint8, xid: uint32,
                       responseDelay: uint16, dcpDataLength: uint16): (r: seq<uint8>)
    ensures |r| == HeaderLen
    ensures GetFrameId(r) == frameId && GetServiceId(r) == serviceId && GetServiceType(r) == serviceType
    ensures GetXid(r) == xid && GetResponseDelay(r) == responseDelay && GetDcpDataLength(r) == dcpDataLength
  {
    var f, x := EncodeBE16(frameId), EncodeBE32(xid);
    var d, n := EncodeBE16(responseDelay), EncodeBE16(dcpDataLength);
    var r := [f[0], f[1], serviceId, serviceType, x[0], x[1], x[2], x[3], d[0], d[1], n[0], n[1]];
    assert r[0..2] == f && r[4..8] == x && r[8..10] == d && r[10..12] == n;
    assert BE32(r[4..8], 0) == BE32(r, 4);
    r
  }

  /** The constructor as written lays down the intended header exactly when
      the transaction identifier is 0 and either the host is big-endian or
      response delay and DCP data length read the same in either byte
      order. */
  lemma AsWrittenMatchesBuilt(host: Endian, frameId: uint16, serviceId: uint8, serviceType: uint8, xid: uint32,
                              responseDelay: uint16, dcpDataLength: uint16)
    ensures AsWrittenHeader(host, frameId, serviceId, serviceType, xid, responseDelay, dcpDataLength)
            == BuiltHeader(frameId, serviceId, serviceType, xid, responseDelay, dcpDataLength)
            <==> xid == 0
                 && (host.BigEndian?
                     || (responseDelay / 0x100 == responseDelay % 0x100
                         && dcpDataLength / 0x100 == dcpDataLength % 0x100))
  {
    var w := AsWrittenHeader(host, frameId, serviceId, serviceType, xid, responseDelay, dcpDataLength);
    var b := BuiltHeader(frameId, serviceId, serviceType, xid, responseDelay, dcpDataLength);
    Swap16FixedPoints(responseDelay);
    Swap16FixedPoints(dcpDataLength);
    if w == b {
      assert GetXid(w) == GetXid(b);
      assert GetResponseDelay(w) == GetResponseDelay(b) && GetDcpDataLength(w) == GetDcpDataLength(b);
    }
  }

  /** The test's frame built on a little-endian host: the transaction
      identifier 16777217 reads back 0, the response delay 1 reads back 256
      and the DCP data length 4 reads back 1024. */
  lemma AsWrittenConstructorLosesFields()
    ensures var r := AsWrittenHeader(LittleEndian, 0xfefe, 5, 0, 16777217, 1, 4);
      GetXid(r) == 0 && GetResponseDelay(r) == 0x100 && GetDcpDataLength(r) == 0x400
  {
    assert Swap16(1) == 0x100 by {
      assert EncodeBE16(Swap16(1)) == [1, 0];
      assert BE16(EncodeBE16(Swap16(1)), 0) == 0x100;
    }
    assert Swap16(4) == 0x400 by {
      assert EncodeBE16(Swap16(4)) == [4, 0];
      assert BE16(EncodeBE16(Swap16(4)), 0) == 0x400;
    }
  }

  // ---------------------------------------------------------------------------
  // The layer object
  // ---------------------------------------------------------------------------

  class PnDcpLayer {
    /** m_Data; m_DataLen is data.Length. */
    var data: array<uint8>
    /** m_Protocol. */
    var protocol: ProtocolType
    /** Where m_NextLayer's bytes lie within data, if it was created. */
    var nextLayer: Option<Span>

    /** Decoding path: a view over existing bytes, tagged PNDCP. */
    constructor FromRawData(rawData: array<uint8>)
      ensures this.data == rawData && protocol == PNDCP && nextLayer == None
    {
      this.data := rawData;
      protocol := PNDCP;
      nextLayer := None;
    }

    /** Building path: a fresh zero-filled header with every argument written
        to its member. A wider member is stored through htobe16 / htobe32,
        which lay down its network-order bytes on either host
        (ByteOrder.HostToBE16, ByteOrder.HostToBE32). */
    constructor (frameId: uint16, serviceId: uint8, serviceType: uint8, xid: uint32,
                 responseDelay: uint16, dcpDataLength: uint16)
      ensures fresh(data)
      ensures data[..] == BuiltHeader(frameId, serviceId, serviceType, xid, responseDelay, dcpDataLength)
      ensures protocol == PNDCP && nextLayer == None
    {
      var buf := new uint8[HeaderLen](_ => 0);
      var f := EncodeBE16(frameId);
      buf[0], buf[1] := f[0], f[1];
      buf[2] := serviceId;
      buf[3] := serviceType;
      var x := EncodeBE32(xid);
      buf[4], buf[5], buf[6], buf[7] := x[0], x[1], x[2], x[3];
      var d := EncodeBE16(responseDelay);
      buf[8], buf[9] := d[0], d[1];
      var n := EncodeBE16(dcpDataLength);
      buf[10], buf[11] := n[0], n[1];
      data := buf;
      protocol := PNDCP;
      nextLayer := None;
    }

    /** computeCalculateFields: nothing to compute for this layer. */
    method ComputeCalculateFields()
      ensures unchanged(data)
    {
    }

    /** parseNextLayer: the bytes after the header, if any, become the
        successor; otherwise nothing is created. */
    method ParseNextLayer()
      modifies this`nextLayer
      ensures PayloadAfter(data.Length, HeaderLen).Some? ==> nextLayer == PayloadAfter(data.Length, HeaderLen)
      ensures PayloadAfter(data.Length, HeaderLen).None? ==> nextLayer == old(nextLayer)
    {
      if data.Length <= HeaderLen {
        return;
      }
      nextLayer := Some(Span(HeaderLen, data.Length - HeaderLen));
    }
  }
}
