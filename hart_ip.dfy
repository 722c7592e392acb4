/** The HART-IP layer: the 8-byte HART-IP message header (version, message
    type, message identifier, status, sequence number, byte count) overlaid
    on the layer's bytes at fixed offsets, with the summary text that names
    the message type and identifier from fixed tables. */
module HartIp {
  import opened ByteOrder
  import opened Decimal
  import opened Layers

  /** sizeof(hartiphdr): 1+1+1+1+2+2 packed bytes. */
  const HeaderLen: nat := 8

  /** The TCP/UDP port associated with HART-IP. */
  const HartIpPort: uint16 := 5094

  /** The members of hartiphdr, in declaration order. */
  datatype Field = Version | MsgType | MsgId | Status | SeqNum | ByteCount

  /** Offset and width of each member in the packed struct. */
  function SpanOf(f: Field): Span {
    match f
    case Version => Span(0, 1)
    case MsgType => Span(1, 1)
    case MsgId => Span(2, 1)
    case Status => Span(3, 1)
    case SeqNum => Span(4, 2)
    case ByteCount => Span(6, 2)
  }

  const Layout: seq<Span> := [
    SpanOf(Version), SpanOf(MsgType), SpanOf(MsgId), SpanOf(Status), SpanOf(SeqNum), SpanOf(ByteCount)]

  /** The members, in order, cover the header's 8 bytes without gap or
      overlap. */
  lemma LayoutTilesHeader()
    ensures Tiles(Layout, 0, HeaderLen)
  {
  }

  // ---------------------------------------------------------------------------
  // Field getters: byte members read as they are, the two 16-bit members
  // decoded with be16toh (the big-endian value of their bytes on any host,
  // see ByteOrder.FieldRead16AnyHost).
  // ---------------------------------------------------------------------------

  function GetVersion(buf: seq<uint8>): uint8
    requires |buf| >= HeaderLen
  {
    buf[0]
  }

  function GetMsgType(buf: seq<uint8>): uint8
    requires |buf| >= HeaderLen
  {
    buf[1]
  }

  function GetMsgId(buf: seq<uint8>): uint8
    requires |buf| >= HeaderLen
  {
    buf[2]
  }

  function GetStatus(buf: seq<uint8>): uint8
    requires |buf| >= HeaderLen
  {
    buf[3]
  }

  function GetSeqNum(buf: seq<uint8>): (r: uint16)
    requires |buf| >= HeaderLen
    ensures EncodeBE16(r) == buf[4..6]
  {
    EncodeBE16OfBE16(buf, 4);
    BE16(buf, 4)
  }

  function GetByteCount(buf: seq<uint8>): (r: uint16)
    requires |buf| >= HeaderLen
    ensures EncodeBE16(r) == buf[6..8]
  {
    EncodeBE16OfBE16(buf, 6);
    BE16(buf, 6)
  }

  // ---------------------------------------------------------------------------
  // Classification
  // ---------------------------------------------------------------------------

  /** isHartIpPort: a single port, compared with 5094. */
  predicate IsHartIpPort(port: uint16) {
    port == HartIpPort
  }

  /** isDataValid: the data is non-null and holds at least a
      header. The content is not inspected. */
  predicate IsDataValid(data: Option<seq<uint8>>, dataSize: nat) {
    data.Some? && dataSize >= HeaderLen
  }

  lemma IsDataValidOnlyChecksSize(data: Option<seq<uint8>>, dataSize: nat)
    ensures dataSize < HeaderLen ==> !IsDataValid(data, dataSize)
    ensures forall other: seq<uint8> :: data.Some? ==> IsDataValid(Some(other), dataSize) == IsDataValid(data, dataSize)
  {
  }

  // ---------------------------------------------------------------------------
  // Summary
  // ---------------------------------------------------------------------------

  /** The message type codes the summary names. */
  const KnownMsgTypes: set<uint8> := {0x00, 0x01, 0x02, 0x0f}

  /** The message identifier codes the summary names. */
  const KnownMsgIds: set<uint8> := {0x00, 0x01, 0x02, 0x0f}

  /** The message type table of toString. */
  function MsgTypeText(code: uint8): (s: string)
    ensures s == "unknown message type" <==> code !in KnownMsgTypes
    ensures ',' !in s
  {
    match code
    case 0x00 => "request"
    case 0x01 => "response"
    case 0x02 => "publish"
    case 0x0f => "NAK"
    case _ => "unknown message type"
  }

  /** The message identifier table of toString. */
  function MsgIdText(code: uint8): (s: string)
    ensures s == "unknown message id" <==> code !in KnownMsgIds
    ensures ',' !in s
  {
    match code
    case 0x00 => "session initiate"
    case 0x01 => "session close"
    case 0x02 => "keep alive"
    case 0x0f => "HART token-passing PDU"
    case _ => "unknown message id"
  }

  /** Each known message type has a text of its own; every other code shares
      the fallback text. */
  lemma MsgTypeTextDistinct(a: uint8, b: uint8)
    ensures MsgTypeText(a) == MsgTypeText(b) <==> a == b || (a !in KnownMsgTypes && b !in KnownMsgTypes)
  {
  }

  /** Each known message identifier has a text of its own; every other code
      shares the fallback text. */
  lemma MsgIdTextDistinct(a: uint8, b: uint8)
    ensures MsgIdText(a) == MsgIdText(b) <==> a == b || (a !in KnownMsgIds && b !in KnownMsgIds)
  {
  }

  /** toString: version, the two table texts, status and sequence number;
      the byte count is not shown. */
  function ToString(buf: seq<uint8>): string
    requires |buf| >= HeaderLen
  {
    "HART-IP, "
    + "version: " + NatToDecimal(GetVersion(buf))
    + ", message type: " + MsgTypeText(GetMsgType(buf))
    + ", message id: " + MsgIdText(GetMsgId(buf))
    + ", status: " + NatToDecimal(GetStatus(buf))
    + ", sequence number: " + NatToDecimal(GetSeqNum(buf))
  }

  /** The part of the summary between the version and the status. */
  function TablePart(buf: seq<uint8>): string
    requires |buf| >= HeaderLen
  {
    ", message type: " + MsgTypeText(GetMsgType(buf)) + ", message id: " + MsgIdText(GetMsgId(buf))
  }

  const NumberLabels: seq<string> := [", status: ", ", sequence number: "]

  /** Regrouping the ten pieces of a summary. */
  lemma Regroup(a: string, b: string, c: string, d: string, e: string, f: string, g: string, h: string,
                i: string, j: string)
    ensures a + b + c + d + e + f + g + h + i + j == a + b + c + ((d + e + f + g) + h + i + j)
  {
  }

  /** The summary with the part between version and status grouped. */
  lemma ToStringParts(buf: seq<uint8>)
    requires |buf| >= HeaderLen
    ensures ToString(buf) == "HART-IP, " + "version: " + NatToDecimal(GetVersion(buf))
                             + (TablePart(buf) + ", status: " + NatToDecimal(GetStatus(buf))
                                + ", sequence number: " + NatToDecimal(GetSeqNum(buf)))
  {
    Regroup("HART-IP, ", "version: ", NatToDecimal(GetVersion(buf)), ", message type: ", MsgTypeText(GetMsgType(buf)),
            ", message id: ", MsgIdText(GetMsgId(buf)), ", status: ", NatToDecimal(GetStatus(buf)),
            ", sequence number: " + NatToDecimal(GetSeqNum(buf)));
  }

  /** The summary after the version: the table part, then status and sequence
      number in decimal. */
  lemma ToStringShape(buf: seq<uint8>)
    requires |buf| >= HeaderLen
    ensures ToString(buf) == "HART-IP, " + "version: " + NatToDecimal(GetVersion(buf))
                             + Render(TablePart(buf), NumberLabels, [GetStatus(buf), GetSeqNum(buf)])
  {
    var h, l := TablePart(buf), NumberLabels;
    var v: seq<nat> := [GetStatus(buf), GetSeqNum(buf)];
    RenderSnoc(h, [], [], l[0], v[0]);
    RenderSnoc(h, l[..1], v[..1], l[1], v[1]);
    assert l[..1] == [] + [l[0]] && v[..1] == [] + [v[0]];
    assert l == l[..1] + [l[1]] && v == v[..1] + [v[1]];
    ToStringParts(buf);
  }

  /** The summary after its version: the table part, status and sequence
      number. */
  function AfterVersion(buf: seq<uint8>): string
    requires |buf| >= HeaderLen
  {
    Render(TablePart(buf), NumberLabels, [GetStatus(buf), GetSeqNum(buf)])
  }

  /** Equal summaries show the same version, and the same text after it. */
  lemma ToStringPeelVersion(a: seq<uint8>, b: seq<uint8>)
    requires |a| >= HeaderLen && |b| >= HeaderLen && ToString(a) == ToString(b)
    ensures GetVersion(a) == GetVersion(b) && AfterVersion(a) == AfterVersion(b)
  {
    ToStringShape(a);
    ToStringShape(b);
    RenderPrefix(TablePart(a), NumberLabels, [GetStatus(a), GetSeqNum(a)]);
    RenderPrefix(TablePart(b), NumberLabels, [GetStatus(b), GetSeqNum(b)]);
    PeelPrefixedDecimal("HART-IP, " + "version: ", GetVersion(a), AfterVersion(a), GetVersion(b), AfterVersion(b));
  }

  /** ", message type: " t ", message id: " i splits back into t and i when
      t holds no comma. */
  lemma PeelTableTexts(t1: string, i1: string, t2: string, i2: string)
    requires ',' !in t1 && ',' !in t2
    requires ", message type: " + t1 + ", message id: " + i1 == ", message type: " + t2 + ", message id: " + i2
    ensures t1 == t2 && i1 == i2
  {
    var p, q := ", message type: ", ", message id: ";
    assert (p + t1 + q + i1)[|p|..] == t1 + (q + i1);
    assert (p + t2 + q + i2)[|p|..] == t2 + (q + i2);
    PeelBeforeSeparator(',', t1, q + i1, t2, q + i2);
    assert i1 == (q + i1)[|q|..] && i2 == (q + i2)[|q|..];
  }

  /** The table part names the type and identifier texts, each recoverable
      because neither table text holds a comma. */
  lemma TablePartInjective(a: seq<uint8>, b: seq<uint8>)
    requires |a| >= HeaderLen && |b| >= HeaderLen && TablePart(a) == TablePart(b)
    ensures MsgTypeText(GetMsgType(a)) == MsgTypeText(GetMsgType(b))
    ensures MsgIdText(GetMsgId(a)) == MsgIdText(GetMsgId(b))
  {
    PeelTableTexts(MsgTypeText(GetMsgType(a)), MsgIdText(GetMsgId(a)), MsgTypeText(GetMsgType(b)), MsgIdText(GetMsgId(b)));
  }

  /** Equal summaries show the same version, type text, identifier text,
      status and sequence number. */
  lemma ToStringInjective(a: seq<uint8>, b: seq<uint8>)
    requires |a| >= HeaderLen && |b| >= HeaderLen && ToString(a) == ToString(b)
    ensures GetVersion(a) == GetVersion(b) && GetStatus(a) == GetStatus(b) && GetSeqNum(a) == GetSeqNum(b)
    ensures MsgTypeText(GetMsgType(a)) == MsgTypeText(GetMsgType(b))
    ensures MsgIdText(GetMsgId(a)) == MsgIdText(GetMsgId(b))
  {
    ToStringPeelVersion(a, b);
    var va: seq<nat>, vb: seq<nat> := [GetStatus(a), GetSeqNum(a)], [GetStatus(b), GetSeqNum(b)];
    RenderInjective(TablePart(a), TablePart(b), NumberLabels, va, vb);
    assert va[0] == vb[0] && va[1] == vb[1];
    TablePartInjective(a, b);
  }

  /** Two headers have the same summary exactly when they agree on version,
      status and sequence number and their type and identifier codes have
      the same table texts: the byte count never shows. */
  lemma ToStringDeterminesShownFields(a: seq<uint8>, b: seq<uint8>)
    requires |a| >= HeaderLen && |b| >= HeaderLen
    ensures ToString(a) == ToString(b)
            <==> GetVersion(a) == GetVersion(b) && GetStatus(a) == GetStatus(b) && GetSeqNum(a) == GetSeqNum(b)
                 && MsgTypeText(GetMsgType(a)) == MsgTypeText(GetMsgType(b))
                 && MsgIdText(GetMsgId(a)) == MsgIdText(GetMsgId(b))
  {
    if ToString(a) == ToString(b) {
      ToStringInjective(a, b);
    }
  }

  /** Rewriting the byte count leaves the summary as it was. */
  lemma ToStringIgnoresByteCount(buf: seq<uint8>, byteCount: uint16)
    requires |buf| >= HeaderLen
    ensures ToString(Splice(buf, SpanOf(ByteCount).offset, EncodeBE16(byteCount))) == ToString(buf)
  {
    var r := Splice(buf, SpanOf(ByteCount).offset, EncodeBE16(byteCount));
    assert r[..6] == buf[..6];
    assert r[4..6] == buf[4..6];
  }

  /** The captured message of the test suite: its members and its summary. */
  lemma CapturedMessage()
    ensures var buf := [0x01, 0x00, 0x00, 0x00, 0x00, 0x02, 0x00, 0x0D];
      && GetVersion(buf) == 1 && GetMsgType(buf) == 0 && GetMsgId(buf) == 0 && GetStatus(buf) == 0
      && GetSeqNum(buf) == 2 && GetByteCount(buf) == 13
      && ToString(buf) == "HART-IP, " + "version: " + "1" + ", message type: " + "request"
                          + ", message id: " + "session initiate" + ", status: " + "0"
                          + ", sequence number: " + "2"
  {
    var buf := [0x01, 0x00, 0x00, 0x00, 0x00, 0x02, 0x00, 0x0D];
    assert GetSeqNum(buf) == 2 && GetByteCount(buf) == 13;
    assert NatToDecimal(1) == "1" && NatToDecimal(0) == "0" && NatToDecimal(2) == "2";
  }

  // ---------------------------------------------------------------------------
  // Construction
  // ---------------------------------------------------------------------------

  /** The header the building constructor lays down as written: version,
      message type and status stored, the message identifier left at 0, and
      sequence number and byte count stored in host order with no htobe16. */
  function AsWrittenHeader(host: Endian, version: uint8, msgType: uint8, msgId: uint8, status: uint8,
                           seqNum: uint16, byteCount: uint16): (r: seq<uint8>)
    ensures |r| == HeaderLen
    ensures GetVersion(r) == version && GetMsgType(r) == msgType && GetStatus(r) == status
    ensures GetMsgId(r) == 0
    ensures GetSeqNum(r) == if host.BigEndian? then seqNum else Swap16(seqNum)
    ensures GetByteCount(r) == if host.BigEndian? then byteCount else Swap16(byteCount)
  {
    var r := [version, msgType, 0, status] + HostBytes16(host, seqNum) + HostBytes16(host, byteCount);
    assert r[4..6] == HostBytes16(host, seqNum) && r[6..8] == HostBytes16(host, byteCount);
    EncodeBE16OfBE16(r, 4);
    EncodeBE16OfBE16(r, 6);
    r
  }

  /** The header the building constructor is meant to lay down: every
      argument in its member, 16-bit members in network order, so every
      getter returns its argument. */
  function BuiltHeader(version: uint8, msgType: uint8, msgId: uint8, status: uint8,
                       seqNum: uint16, byteCount: uint16): (r: seq<uint8>)
    ensures |r| == HeaderLen
    ensures GetVersion(r) == version && GetMsgType(r) == msgType && GetMsgId(r) == msgId
    ensures GetStatus(r) == status && GetSeqNum(r) == seqNum && GetByteCount(r) == byteCount
  {
    var sn, bc := EncodeBE16(seqNum), EncodeBE16(byteCount);
    var r := [version, msgType, msgId, status, sn[0], sn[1], bc[0], bc[1]];
    assert r[4..6] == sn && r[6..8] == bc;
    r
  }

  /** The constructor as written lays down the intended header exactly when
      the message identifier is 0 and either the host is big-endian or both
      16-bit arguments read the same in either byte order. */
  lemma AsWrittenMatchesBuilt(host: Endian, version: uint8, msgType: uint8, msgId: uint8, status: uint8,
                              seqNum: uint16, byteCount: uint16)
    ensures AsWrittenHeader(host, version, msgType, msgId, status, seqNum, byteCount)
            == BuiltHeader(version, msgType, msgId, status, seqNum, byteCount)
            <==> msgId == 0
                 && (host.BigEndian? || (seqNum / 0x100 == seqNum % 0x100 && byteCount / 0x100 == byteCount % 0x100))
  {
    var w := AsWrittenHeader(host, version, msgType, msgId, status, seqNum, byteCount);
    var b := BuiltHeader(version, msgType, msgId, status, seqNum, byteCount);
    Swap16FixedPoints(seqNum);
    Swap16FixedPoints(byteCount);
    if w == b {
      assert GetMsgId(w) == GetMsgId(b);
      assert GetSeqNum(w) == GetSeqNum(b) && GetByteCount(w) == GetByteCount(b);
    }
  }

  /** The test's message built on a little-endian host: the message
      identifier 1 reads back 0 and the sequence number 2 reads back 512. */
  lemma AsWrittenConstructorLosesFields()
    ensures GetMsgId(AsWrittenHeader(LittleEndian, 1, 0, 1, 0, 2, 13)) == 0
    ensures GetSeqNum(AsWrittenHeader(LittleEndian, 1, 0, 1, 0, 2, 13)) == 0x200
  {
    assert Swap16(2) == 0x200 by {
      assert EncodeBE16(Swap16(2)) == [2, 0];
      assert BE16(EncodeBE16(Swap16(2)), 0) == 0x200;
    }
  }

  // ---------------------------------------------------------------------------
  // The layer object
  // ---------------------------------------------------------------------------

  class HartIpLayer {
    /** m_Data; m_DataLen is data.Length. */
    var data: array<uint8>
    /** m_Protocol. */
    var protocol: ProtocolType
    /** Where m_NextLayer's bytes lie within data, if it was created. */
    var nextLayer: Option<Span>

    /** Decoding path: a view over existing bytes, tagged HARTIP. */
    constructor FromRawData(rawData: array<uint8>)
      ensures this.data == rawData && protocol == HARTIP && nextLayer == None
    {
      this.data := rawData;
      protocol := HARTIP;
      nextLayer := None;
    }

    /** Building path: a fresh zero-filled header with every argument written
        to its member. A 16-bit member is stored through htobe16, which lays
        down its network-order bytes on either host (ByteOrder.HostToBE16). */
    constructor (version: uint8, msgType: uint8, msgId: uint8, status: uint8, seqNum: uint16, byteCount: uint16)
      ensures fresh(data)
      ensures data[..] == BuiltHeader(version, msgType, msgId, status, seqNum, byteCount)
      ensures protocol == HARTIP && nextLayer == None
    {
      var buf := new uint8[HeaderLen](_ => 0);
      buf[0] := version;
      buf[1] := msgType;
      buf[2] := msgId;
      buf[3] := status;
      var sn := EncodeBE16(seqNum);
      buf[4], buf[5] := sn[0], sn[1];
      var bc := EncodeBE16(byteCount);
      buf[6], buf[7] := bc[0], bc[1];
      data := buf;
      protocol := HARTIP;
      nextLayer := None;
    }

    /** computeCalculateFields: nothing to compute for this layer. */
    method ComputeCalculateFields()
      ensures unchanged(data)
    {
    }

    /** parseNextLayer: does nothing, so a HART-IP layer built or decoded
        here never has a successor. */
    method ParseNextLayer()
      ensures unchanged(this)
    {
    }
  }
}
