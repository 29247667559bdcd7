/** Compacting a store by a mask: kept records are copied one after the other, and only their offsets change. */
module Compaction {
  import opened Wrappers
  import opened ExpertStore
  import opened GgufIndex

  datatype Header = Header(nLayers: nat, nExperts: nat, dataBytes: nat)

  datatype Error = BadRecord | EmptyMask | MaskOutOfRange | MaskMissingFromStore | SizeMismatch | ShortRead

  datatype Compacted = Compacted(records: seq<Record>, data: Bytes)

  type Mask = set<(nat, nat)>

  function IdOf(r: Record): (nat, nat) { (r.layer, r.expert) }

  function Ids(records: seq<Record>): Mask { set r | r in records :: IdOf(r) }

  predicate AlignedRecord(r: Record) { r.readBytes > 0 && r.readBytes % ALIGN == 0 && r.fileOffset % ALIGN == 0 }

  /** What `read_index` accepts: ids in range and distinct, sizes and offsets aligned. */
  predicate GoodIndex(h: Header, records: seq<Record>) {
    IdsInRange(records, h.nLayers, h.nExperts) && IdsDistinct(records) &&
    forall i | 0 <= i < |records| :: AlignedRecord(records[i])
  }

  /** The records the mask leaves, in source order. */
  function Kept(records: seq<Record>, mask: Mask): seq<Record> {
    if |records| == 0 then []
    else
      var init, last := Kept(records[..|records| - 1], mask), records[|records| - 1];
      if IdOf(last) in mask then init else init + [last]
  }

  predicate InFile(r: Record, size: nat) { r.fileOffset + r.readBytes <= size }

  /** `out` is `r` moved to a new offset, with the same bytes behind it. */
  ghost predicate SameBytes(r: Record, data: Bytes, out: Record, newData: Bytes) {
    out == r.(fileOffset := out.fileOffset) && InFile(r, |data|) && InFile(out, |newData|) &&
    newData[out.fileOffset..out.fileOffset + out.readBytes] == data[r.fileOffset..r.fileOffset + r.readBytes]
  }

  /** Records at increasing, aligned, non-overlapping offsets inside a file of `size` bytes. */
  ghost predicate Packed(records: seq<Record>, size: nat) {
    (forall i | 0 <= i < |records| :: records[i].fileOffset % ALIGN == 0 && InFile(records[i], size)) &&
    (forall i, j | 0 <= i < j < |records| :: records[i].fileOffset + records[i].readBytes <= records[j].fileOffset)
  }

  /** `after` holds the records of `before`, each with its bytes. */
  ghost predicate Moved(before: seq<Record>, data: Bytes, after: seq<Record>, newData: Bytes) {
    |after| == |before| && forall i | 0 <= i < |before| :: SameBytes(before[i], data, after[i], newData)
  }

  lemma AppendOne(before: seq<Record>, data: Bytes, after: seq<Record>, newData: Bytes, r: Record, pad: Bytes)
    requires Moved(before, data, after, newData) && Packed(after, |newData|) && AlignedRecord(r) && InFile(r, |data|)
    requires (|newData| + |pad|) % ALIGN == 0
    ensures var start := |newData| + |pad|;
            var longer := newData + pad + data[r.fileOffset..r.fileOffset + r.readBytes];
            Moved(before + [r], data, after + [r.(fileOffset := start)], longer) &&
            Packed(after + [r.(fileOffset := start)], |longer|)
  {
    var start := |newData| + |pad|;
    var block := data[r.fileOffset..r.fileOffset + r.readBytes];
    var longer := newData + pad + block;
    forall i | 0 <= i < |before|
      ensures SameBytes(before[i], data, after[i], longer)
    {
      var o := after[i];
      assert longer[o.fileOffset..o.fileOffset + o.readBytes] == newData[o.fileOffset..o.fileOffset + o.readBytes];
    }
    assert longer[start..start + r.readBytes] == block;
    assert SameBytes(r, data, r.(fileOffset := start), longer);
  }

  /** The copying loop of `compact_store`. */
  method CopyKept(records: seq<Record>, mask: Mask, data: Bytes) returns (r: Option<Compacted>)
    requires forall i | 0 <= i < |records| :: AlignedRecord(records[i])
    ensures r.Some? <==> forall k | k in Kept(records, mask) :: InFile(k, |data|)
    ensures r.Some? ==>
      Moved(Kept(records, mask), data, r.value.records, r.value.data) && Packed(r.value.records, |r.value.data|)
  {
    hide AlignUp, Packed, Moved;
    var out: Bytes, kept: seq<Record> := [], [];
    StartPacked(data);
    for i := 0 to |records|
      invariant Moved(Kept(records[..i], mask), data, kept, out) && Packed(kept, |out|)
      invariant forall k | k in Kept(records[..i], mask) :: InFile(k, |data|)
    {
      var rec := records[i];
      assert records[..i + 1][..i] == records[..i];
      if IdOf(rec) !in mask {
        if !InFile(rec, |data|) {
          KeptIn(records, mask, i);
          return None;
        }
        var start := AlignUp(|out|);
        Aligned(|out|);
        var pad := seq(start - |out|, _ => 0 as bv8);
        AppendOne(Kept(records[..i], mask), data, kept, out, rec, pad);
        out := out + pad + data[rec.fileOffset..rec.fileOffset + rec.readBytes];
        kept := kept + [rec.(fileOffset := start)];
      }
    }
    assert records[..|records|] == records;
    return Some(Compacted(kept, out));
  }

  lemma StartPacked(data: Bytes)
    ensures Moved([], data, [], []) && Packed([], 0)
  {
  }

  lemma {:induction false} KeptIn(records: seq<Record>, mask: Mask, i: nat)
    requires i < |records| && IdOf(records[i]) !in mask
    ensures records[i] in Kept(records, mask)
    decreases |records|
  {
    if i < |records| - 1 {
      KeptIn(records[..|records| - 1], mask, i);
    }
  }

  lemma {:induction false} KeptAre(records: seq<Record>, mask: Mask)
    ensures forall r :: r in Kept(records, mask) <==> r in records && IdOf(r) !in mask
    decreases |records|
  {
    if |records| > 0 {
      var init, last := records[..|records| - 1], records[|records| - 1];
      assert records == init + [last];
      KeptAre(init, mask);
    }
  }

  lemma {:induction false} KeptDistinct(records: seq<Record>, mask: Mask)
    requires IdsDistinct(records)
    ensures IdsDistinct(Kept(records, mask))
    decreases |records|
  {
    if |records| > 0 {
      var init, last := records[..|records| - 1], records[|records| - 1];
      KeptDistinct(init, mask);
      KeptAre(init, mask);
      var k := Kept(init, mask);
      forall i | 0 <= i < |k|
        ensures k[i].layer != last.layer || k[i].expert != last.expert
      {
        assert k[i] in init;
      }
    }
  }

  /** Moving keeps the ids. */
  lemma MovedIds(before: seq<Record>, data: Bytes, after: seq<Record>, newData: Bytes)
    requires Moved(before, data, after, newData)
    ensures Ids(after) == Ids(before) && (IdsDistinct(before) ==> IdsDistinct(after))
    ensures forall i | 0 <= i < |after| :: IdOf(after[i]) == IdOf(before[i])
  {
    forall i | 0 <= i < |after|
      ensures IdOf(after[i]) == IdOf(before[i])
    {
      assert SameBytes(before[i], data, after[i], newData);
    }
    forall x | x in Ids(after)
      ensures x in Ids(before)
    {
      var i :| 0 <= i < |after| && IdOf(after[i]) == x;
      assert before[i] in before;
    }
    forall x | x in Ids(before)
      ensures x in Ids(after)
    {
      var i :| 0 <= i < |before| && IdOf(before[i]) == x;
      assert after[i] in after;
    }
  }

  predicate InRange(h: Header, mask: Mask) { forall x | x in mask :: x.0 < h.nLayers && x.1 < h.nExperts }

  /** The index and the mask pass every check. */
  predicate Accepts(h: Header, records: seq<Record>, mask: Mask, allowMissing: bool) {
    GoodIndex(h, records) && mask != {} && InRange(h, mask) && (allowMissing || mask <= Ids(records))
  }

  /** `compact_store`: the checks in order, then the copy. */
  method CompactStore(h: Header, records: seq<Record>, data: Bytes, mask: Mask, allowMissing: bool)
      returns (r: Result<Compacted, Error>)
    ensures r == Err(BadRecord) <==> !GoodIndex(h, records)
    ensures r == Err(EmptyMask) <==> GoodIndex(h, records) && mask == {}
    ensures r == Err(MaskOutOfRange) <==> GoodIndex(h, records) && mask != {} && !InRange(h, mask)
    ensures r == Err(MaskMissingFromStore) <==>
      GoodIndex(h, records) && mask != {} && InRange(h, mask) && !allowMissing && !(mask <= Ids(records))
    ensures r == Err(SizeMismatch) <==> Accepts(h, records, mask, allowMissing) && h.dataBytes != |data|
    ensures r == Err(ShortRead) <==>
      Accepts(h, records, mask, allowMissing) && h.dataBytes == |data| &&
      exists k | k in Kept(records, mask) :: !InFile(k, |data|)
    ensures r.Ok? ==> Accepts(h, records, mask, allowMissing) && h.dataBytes == |data|
    ensures r.Ok? ==>
      Moved(Kept(records, mask), data, r.value.records, r.value.data) && Packed(r.value.records, |r.value.data|)
  {
    hide Moved, Packed, Kept;
    if !GoodIndex(h, records) {
      return Err(BadRecord);
    }
    if mask == {} {
      return Err(EmptyMask);
    }
    if !InRange(h, mask) {
      return Err(MaskOutOfRange);
    }
    if !(mask <= Ids(records)) && !allowMissing {
      return Err(MaskMissingFromStore);
    }
    if h.dataBytes != |data| {
      return Err(SizeMismatch);
    }
    var c := CopyKept(records, mask, data);
    if c.None? {
      return Err(ShortRead);
    }
    return Ok(c.value);
  }
}
