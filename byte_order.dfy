/** Fixed-width unsigned integers, big-endian wire encoding, and the host-order
    stores, loads and byte-order conversions (htobe16, be16toh, htobe32) that
    the layers apply to their packed header fields. */
module ByteOrder {

  type uint8 = x: int | 0 <= x < 0x100
  type uint16 = x: int | 0 <= x < 0x1_0000
  type uint32 = x: int | 0 <= x < 0x1_0000_0000

  /** Byte order of the machine the layer code runs on. */
  datatype Endian = LittleEndian | BigEndian

  // ---------------------------------------------------------------------------
  // Big-endian (network order) decoding and encoding
  // ---------------------------------------------------------------------------

  /** The value of the two bytes at buf[off], most significant byte first. */
  function BE16(buf: seq<uint8>, off: nat): uint16
    requires off + 2 <= |buf|
  {
    buf[off] as int * 0x100 + buf[off + 1]
  }

  /** The value of the four bytes at buf[off], most significant byte first. */
  function BE32(buf: seq<uint8>, off: nat): uint32
    requires off + 4 <= |buf|
  {
    BE16(buf, off) as int * 0x1_0000 + BE16(buf, off + 2)
  }

  /** The two wire bytes of v in network order; BE16 reads v back. */
  function EncodeBE16(v: uint16): (r: seq<uint8>)
    ensures |r| == 2 && BE16(r, 0) == v
  {
    [v / 0x100, v % 0x100]
  }

  /** The four wire bytes of v in network order; BE32 reads v back. */
  function EncodeBE32(v: uint32): (r: seq<uint8>)
    ensures |r| == 4 && BE32(r, 0) == v
  {
    var r := EncodeBE16(v / 0x1_0000) + EncodeBE16(v % 0x1_0000);
    assert BE16(r, 0) == v / 0x1_0000 && BE16(r, 2) == v % 0x1_0000;
    r
  }

  /** Decoding then encoding gives back the two bytes that were read. */
  lemma EncodeBE16OfBE16(buf: seq<uint8>, off: nat)
    requires off + 2 <= |buf|
    ensures EncodeBE16(BE16(buf, off)) == buf[off..off + 2]
  {
    var hi: int, lo: int := buf[off], buf[off + 1];
    assert (hi * 0x100 + lo) / 0x100 == hi && (hi * 0x100 + lo) % 0x100 == lo;
  }

  /** Decoding then encoding gives back the four bytes that were read. */
  lemma EncodeBE32OfBE32(buf: seq<uint8>, off: nat)
    requires off + 4 <= |buf|
    ensures EncodeBE32(BE32(buf, off)) == buf[off..off + 4]
  {
    var hi: int, lo: int := BE16(buf, off), BE16(buf, off + 2);
    assert (hi * 0x1_0000 + lo) / 0x1_0000 == hi && (hi * 0x1_0000 + lo) % 0x1_0000 == lo;
    EncodeBE16OfBE16(buf, off);
    EncodeBE16OfBE16(buf, off + 2);
  }

  // ---------------------------------------------------------------------------
  // Byte swapping
  // ---------------------------------------------------------------------------

  /** The 16-bit value whose wire bytes are those of v in the other order. */
  function Swap16(v: uint16): (r: uint16)
    ensures EncodeBE16(r) == [EncodeBE16(v)[1], EncodeBE16(v)[0]]
  {
    var r := (v % 0x100) as int * 0x100 + v / 0x100;
    EncodeBE16OfBE16([v % 0x100, v / 0x100], 0);
    r
  }

  /** Swapping twice is the identity. */
  lemma Swap16Involutive(v: uint16)
    ensures Swap16(Swap16(v)) == v
  {
    var w := Swap16(Swap16(v));
    assert EncodeBE16(w) == EncodeBE16(v);
    assert BE16(EncodeBE16(w), 0) == BE16(EncodeBE16(v), 0);
  }

  /** Only values whose two bytes are equal are left unchanged by a swap. */
  lemma Swap16FixedPoints(v: uint16)
    ensures Swap16(v) == v <==> v / 0x100 == v % 0x100
  {
    if Swap16(v) == v {
      assert EncodeBE16(Swap16(v)) == EncodeBE16(v);
    }
  }

  /** The four bytes of s in reverse order. */
  function Reverse4(s: seq<uint8>): (r: seq<uint8>)
    requires |s| == 4
    ensures |r| == 4 && forall i :: 0 <= i < 4 ==> r[i] == s[3 - i]
  {
    [s[3], s[2], s[1], s[0]]
  }

  /** The 32-bit value whose wire bytes are those of v in reverse order. */
  function Swap32(v: uint32): (r: uint32)
    ensures EncodeBE32(r) == Reverse4(EncodeBE32(v))
  {
    var rev := Reverse4(EncodeBE32(v));
    EncodeBE32OfBE32(rev, 0);
    assert rev[0..4] == rev;
    BE32(rev, 0)
  }

  // ---------------------------------------------------------------------------
  // Host-order memory access and the byte-order macros
  // ---------------------------------------------------------------------------

  /** The bytes a 16-bit store of v leaves in memory on the given host. */
  function HostBytes16(host: Endian, v: uint16): (r: seq<uint8>)
    ensures |r| == 2
    ensures BE16(r, 0) == if host.BigEndian? then v else Swap16(v)
  {
    if host.BigEndian? then EncodeBE16(v) else [v % 0x100, v / 0x100]
  }

  /** The bytes a 32-bit store of v leaves in memory on the given host. */
  function HostBytes32(host: Endian, v: uint32): (r: seq<uint8>)
    ensures |r| == 4
    ensures BE32(r, 0) == if host.BigEndian? then v else Swap32(v)
  {
    if host.BigEndian? then EncodeBE32(v) else Reverse4(EncodeBE32(v))
  }

  /** The value a 16-bit load from buf[off] yields on the given host: the
      value whose host-order store lays down exactly those bytes. */
  function LoadHost16(host: Endian, buf: seq<uint8>, off: nat): (r: uint16)
    requires off + 2 <= |buf|
    ensures HostBytes16(host, r) == buf[off..off + 2]
  {
    EncodeBE16OfBE16(buf, off);
    if host.BigEndian? then BE16(buf, off)
    else
      EncodeBE16OfBE16([buf[off + 1], buf[off]], 0);
      BE16([buf[off + 1], buf[off]], 0)
  }

  /** The value a 32-bit load from buf[off] yields on the given host. */
  function LoadHost32(host: Endian, buf: seq<uint8>, off: nat): (r: uint32)
    requires off + 4 <= |buf|
    ensures HostBytes32(host, r) == buf[off..off + 4]
  {
    EncodeBE32OfBE32(buf, off);
    var rev := Reverse4(buf[off..off + 4]);
    EncodeBE32OfBE32(rev, 0);
    assert rev[0..4] == rev;
    if host.BigEndian? then BE32(buf, off) else BE32(rev, 0)
  }

  /** htobe16 (and be16toh, the same operation): the value whose host-order
      store lays down the network-order bytes of v. */
  function HostToBE16(host: Endian, v: uint16): (r: uint16)
    ensures HostBytes16(host, r) == EncodeBE16(v)
  {
    if host.BigEndian? then v else Swap16(v)
  }

  /** htobe32: the value whose host-order store lays down the network-order
      bytes of v. */
  function HostToBE32(host: Endian, v: uint32): (r: uint32)
    ensures HostBytes32(host, r) == EncodeBE32(v)
  {
    if host.BigEndian? then v
    else
      assert Reverse4(Reverse4(EncodeBE32(v))) == EncodeBE32(v);
      Swap32(v)
  }

  /** A getter's `htobe16(load16(field))` is the big-endian value of the
      field's two bytes, on either host. */
  lemma FieldRead16AnyHost(host: Endian, buf: seq<uint8>, off: nat)
    requires off + 2 <= |buf|
    ensures HostToBE16(host, LoadHost16(host, buf, off)) == BE16(buf, off)
  {
    var x := LoadHost16(host, buf, off);
    var r := HostToBE16(host, x);
    if host.LittleEndian? {
      assert EncodeBE16(r) == [EncodeBE16(x)[1], EncodeBE16(x)[0]];
      assert EncodeBE16(x) == [buf[off + 1], buf[off]];
    }
    EncodeBE16OfBE16(buf, off);
    assert EncodeBE16(r) == EncodeBE16(BE16(buf, off));
    assert BE16(EncodeBE16(r), 0) == BE16(EncodeBE16(BE16(buf, off)), 0);
  }

  /** A getter's `htobe32(load32(field))` is the big-endian value of the
      field's four bytes, on either host. */
  lemma FieldRead32AnyHost(host: Endian, buf: seq<uint8>, off: nat)
    requires off + 4 <= |buf|
    ensures HostToBE32(host, LoadHost32(host, buf, off)) == BE32(buf, off)
  {
    var x := LoadHost32(host, buf, off);
    var r := HostToBE32(host, x);
    var bytes := buf[off..off + 4];
    if host.LittleEndian? {
      assert EncodeBE32(r) == Reverse4(EncodeBE32(x));
      assert Reverse4(EncodeBE32(x)) == bytes;
    }
    EncodeBE32OfBE32(buf, off);
    assert EncodeBE32(r) == EncodeBE32(BE32(buf, off));
    assert BE32(EncodeBE32(r), 0) == BE32(EncodeBE32(BE32(buf, off)), 0);
  }
}
