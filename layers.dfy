/** What the three protocol layers share: the protocol tag a layer carries,
    field spans and the tiling of a packed header by them, in-place writes
    of a field's bytes, and where the payload after a fixed-length header
    lies. */
module Layers {
  import opened ByteOrder

  datatype Option<T> = None | Some(value: T)

  /** The classification tag a layer sets on construction. */
  datatype ProtocolType = HARTIP | MODBUSTCP | PNDCP

  /** A byte range [offset, offset + length) of a buffer. */
  datatype Span = Span(offset: nat, length: nat) {
    function End(): nat { offset + length }
  }

  /** The spans, in order, cover [start, end) one after the other, each
      non-empty: the fields of a packed struct. */
  predicate Tiles(spans: seq<Span>, start: nat, end: nat)
    decreases |spans|
  {
    if spans == [] then start == end
    else spans[0].offset == start && spans[0].length > 0 && Tiles(spans[1..], spans[0].End(), end)
  }

  /** Every span of a tiling lies inside the tiled range. */
  lemma {:induction false} TilesBounds(spans: seq<Span>, start: nat, end: nat, k: nat)
    requires Tiles(spans, start, end) && k < |spans|
    ensures start <= spans[k].offset && spans[k].End() <= end
    decreases |spans|
  {
    if k > 0 {
      TilesBounds(spans[1..], spans[0].End(), end, k - 1);
    } else if |spans| > 1 {
      TilesBounds(spans[1..], spans[0].End(), end, 0);
    }
  }

  /** Spans of a tiling do not overlap: an earlier one ends before a later
      one begins. */
  lemma {:induction false} TilesDisjoint(spans: seq<Span>, start: nat, end: nat, j: nat, k: nat)
    requires Tiles(spans, start, end) && j < k < |spans|
    ensures spans[j].End() <= spans[k].offset
    decreases |spans|
  {
    if j == 0 {
      TilesBounds(spans[1..], spans[0].End(), end, k - 1);
    } else {
      TilesDisjoint(spans[1..], spans[0].End(), end, j - 1, k - 1);
    }
  }

  /** Every byte of the tiled range lies in some span. */
  lemma {:induction false} TilesCover(spans: seq<Span>, start: nat, end: nat, i: nat)
    requires Tiles(spans, start, end) && start <= i < end
    ensures exists k :: 0 <= k < |spans| && spans[k].offset <= i < spans[k].End()
    decreases |spans|
  {
    if i >= spans[0].End() {
      TilesCover(spans[1..], spans[0].End(), end, i);
      var k :| 0 <= k < |spans[1..]| && spans[1..][k].offset <= i < spans[1..][k].End();
      assert spans[k + 1] == spans[1..][k];
    }
  }

  /** Where the successor layer lies: nothing when no byte follows the
      header, otherwise everything after it. */
  function PayloadAfter(dataLen: nat, headerLen: nat): (r: Option<Span>)
    ensures r.None? <==> dataLen <= headerLen
    ensures r.Some? ==> r.value.offset == headerLen && r.value.End() == dataLen && r.value.length > 0
  {
    if dataLen <= headerLen then None else Some(Span(headerLen, dataLen - headerLen))
  }

  /** buf with the bytes at [off, off + |bytes|) replaced by bytes. */
  function Splice(buf: seq<uint8>, off: nat, bytes: seq<uint8>): (r: seq<uint8>)
    requires off + |bytes| <= |buf|
    ensures |r| == |buf| && r[off..off + |bytes|] == bytes
    ensures forall i :: 0 <= i < |buf| && !(off <= i < off + |bytes|) ==> r[i] == buf[i]
  {
    buf[..off] + bytes + buf[off + |bytes|..]
  }

  /** A store into the overlaid packed struct: writes bytes at a[off..] in
      place and touches no other byte. */
  method Store(a: array<uint8>, off: nat, bytes: seq<uint8>)
    requires off + |bytes| <= a.Length
    modifies a
    ensures a[..] == Splice(old(a[..]), off, bytes)
  {
    forall i | off <= i < off + |bytes| {
      a[i] := bytes[i - off];
    }
    assert a[..] == Splice(old(a[..]), off, bytes);
  }
}
