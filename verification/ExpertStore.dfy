/** The expert store on disk: the record index, the lookup of one expert, and the bytes one load delivers. */
module ExpertStore {
  import opened Wrappers
  import opened Indexing

  type Bytes = seq<bv8>

  const ALIGN: nat := 4096

  datatype Dtype = Bf16 | Q8Row | Q5G128 | GgufQ8

  datatype Record = Record(
    layer: nat, expert: nat, fileOffset: nat, readBytes: nat, payloadBytes: nat,
    gateOff: nat, gateBytes: nat, upOff: nat, upBytes: nat, downOff: nat, downBytes: nat)

  /** One positioned read: file offset, length, and destination inside the slot. */
  datatype Window = Window(src: nat, bytes: nat, dst: nat)

  datatype GgufSource = GgufSource(gate: Window, up: Window, down: Window)

  datatype Store = Store(
    nLayers: nat, nExperts: nat, dtype: Dtype, dataBytes: nat,
    records: seq<Record>, sources: seq<GgufSource>, recordOf: seq<int>,
    file: nat -> bv8)
  {
    function Keys(): nat { nLayers * nExperts }
  }

  // ---------------------------------------------------------------- the record map

  predicate IdsInRange(records: seq<Record>, nLayers: nat, nExperts: nat) {
    forall i | 0 <= i < |records| :: records[i].layer < nLayers && records[i].expert < nExperts
  }

  predicate IdsDistinct(records: seq<Record>) {
    forall i, j | 0 <= i < j < |records| ::
      records[i].layer != records[j].layer || records[i].expert != records[j].expert
  }

  /** What `read_index` accepts: at least one record, ids in range, no expert twice. */
  predicate IndexOk(records: seq<Record>, nLayers: nat, nExperts: nat) {
    records != [] && IdsInRange(records, nLayers, nExperts) && IdsDistinct(records)
  }

  function KeyOf(r: Record, nExperts: nat): nat { Flat(r.layer, r.expert, nExperts) }

  /** `map` sends the key of each record to its index, and every other key to -1. */
  ghost predicate MapsRecords(map_: seq<int>, records: seq<Record>, nLayers: nat, nExperts: nat) {
    |map_| == nLayers * nExperts &&
    (forall i | 0 <= i < |records| :: KeyOf(records[i], nExperts) < |map_| && map_[KeyOf(records[i], nExperts)] == i) &&
    (forall k | 0 <= k < |map_| ::
      -1 <= map_[k] < |records| && (map_[k] >= 0 ==> KeyOf(records[map_[k]], nExperts) == k))
  }

  /** The map-building part of `read_index`: refuses an empty index, an id out of range and a second record for one
      expert. */
  method BuildMap(records: seq<Record>, nLayers: nat, nExperts: nat) returns (r: Option<seq<int>>)
    ensures r.Some? <==> IndexOk(records, nLayers, nExperts)
    ensures r.Some? ==> MapsRecords(r.value, records, nLayers, nExperts)
  {
    hide Flat;
    if |records| == 0 {
      return None;
    }
    var recordOf := new int[nLayers * nExperts](_ => -1);
    for i := 0 to |records|
      invariant IdsInRange(records[..i], nLayers, nExperts) && IdsDistinct(records[..i])
      invariant MapsRecords(recordOf[..], records[..i], nLayers, nExperts)
    {
      var rec := records[i];
      if rec.layer >= nLayers || rec.expert >= nExperts {
        assert !IdsInRange(records, nLayers, nExperts);
        return None;
      }
      var at := Flat(rec.layer, rec.expert, nExperts);
      FlatInRange(rec.layer, rec.expert, nLayers, nExperts);
      if recordOf[at] >= 0 {
        Clash(recordOf[..], records, i, nLayers, nExperts);
        return None;
      }
      assert records[..i + 1] == records[..i] + [rec];
      recordOf[at] := i;
    }
    assert records[..|records|] == records;
    return Some(recordOf[..]);
  }

  lemma Clash(map_: seq<int>, records: seq<Record>, i: nat, nLayers: nat, nExperts: nat)
    requires i < |records| && MapsRecords(map_, records[..i], nLayers, nExperts) &&
      IdsInRange(records[..i], nLayers, nExperts)
    requires records[i].expert < nExperts && KeyOf(records[i], nExperts) < |map_| &&
      map_[KeyOf(records[i], nExperts)] >= 0
    ensures !IdsDistinct(records)
  {
    hide Flat;
    var j := map_[KeyOf(records[i], nExperts)];
    assert records[..i][j] == records[j];
    SameKey(records[j], records[i], nExperts);
  }

  lemma SameKey(a: Record, b: Record, nExperts: nat)
    requires a.expert < nExperts && b.expert < nExperts && KeyOf(a, nExperts) == KeyOf(b, nExperts)
    ensures a.layer == b.layer && a.expert == b.expert
  {
    DivModOf(a.layer, a.expert, nExperts);
    DivModOf(b.layer, b.expert, nExperts);
  }

  /** A store as `kvl_expert_store_open` leaves it: the record map and, for a GGUF store, checked windows. */
  ghost predicate Opened(s: Store) {
    MapsRecords(s.recordOf, s.records, s.nLayers, s.nExperts) &&
    IdsInRange(s.records, s.nLayers, s.nExperts) && IdsDistinct(s.records) &&
    (s.dtype == GgufQ8 ==>
      |s.sources| == |s.records| && forall i | 0 <= i < |s.records| ::
        SourceOk(s.dataBytes, s.records[i], s.sources[i]))
  }

  /** `kvl_expert_find`. */
  function Find(s: Store, layer: int, expert: int): (idx: int)
    requires |s.recordOf| == s.Keys()
  {
    if layer < 0 || expert < 0 || layer >= s.nLayers || expert >= s.nExperts then -1
    else
      FlatInRange(layer, expert, s.nLayers, s.nExperts);
      s.recordOf[Flat(layer, expert, s.nExperts)]
  }

  /** Lookup finds the record with the given ids, and fails exactly when there is none. */
  lemma FindCorrect(s: Store, layer: int, expert: int)
    requires Opened(s)
    ensures var idx := Find(s, layer, expert);
            (idx >= 0 ==> idx < |s.records| && s.records[idx].layer == layer && s.records[idx].expert == expert) &&
            (idx < 0 ==>
              forall i | 0 <= i < |s.records| :: s.records[i].layer != layer || s.records[i].expert != expert)
  {
    if 0 <= layer < s.nLayers && 0 <= expert < s.nExperts {
      FlatInRange(layer, expert, s.nLayers, s.nExperts);
      var idx := s.recordOf[Flat(layer, expert, s.nExperts)];
      if idx >= 0 {
        var r := s.records[idx];
        FlatInRange(r.layer, r.expert, s.nLayers, s.nExperts);
      }
    }
  }

  // ---------------------------------------------------------------- GGUF windows

  function Windows(q: GgufSource): seq<Window> { [q.gate, q.up, q.down] }

  function PartOff(r: Record, i: nat): nat
    requires i < 3
  {
    if i == 0 then r.gateOff else if i == 1 then r.upOff else r.downOff
  }

  function PartBytes(r: Record, i: nat): nat
    requires i < 3
  {
    if i == 0 then r.gateBytes else if i == 1 then r.upBytes else r.downBytes
  }

  predicate WindowOk(dataBytes: nat, r: Record, w: Window, off: nat, bytes: nat) {
    w.bytes > 0 && w.src % ALIGN == 0 && w.bytes % ALIGN == 0 && w.dst % ALIGN == 0 &&
    w.dst + w.bytes <= r.readBytes && w.src + w.bytes <= dataBytes && w.dst <= off && off + bytes <= w.dst + w.bytes
  }

  predicate SourceOk(dataBytes: nat, r: Record, q: GgufSource) {
    WindowOk(dataBytes, r, q.gate, r.gateOff, r.gateBytes) &&
    WindowOk(dataBytes, r, q.up, r.upOff, r.upBytes) &&
    WindowOk(dataBytes, r, q.down, r.downOff, r.downBytes) &&
    q.gate.bytes + q.up.bytes + q.down.bytes == r.readBytes
  }

  /** `validate_gguf_source`: the loop over the three parts. */
  method ValidateGgufSource(dataBytes: nat, r: Record, q: GgufSource) returns (ok: bool)
    ensures ok <==> SourceOk(dataBytes, r, q)
  {
    var total := 0;
    for i := 0 to 3
      invariant forall k | 0 <= k < i :: WindowOk(dataBytes, r, Windows(q)[k], PartOff(r, k), PartBytes(r, k))
      invariant total == (if i > 0 then q.gate.bytes else 0) + (if i > 1 then q.up.bytes else 0) +
        (if i > 2 then q.down.bytes else 0)
    {
      var w := Windows(q)[i];
      var off, bytes := PartOff(r, i), PartBytes(r, i);
      if w.bytes == 0 || w.src % ALIGN != 0 || w.bytes % ALIGN != 0 || w.dst % ALIGN != 0 ||
         w.dst + w.bytes > r.readBytes || w.src + w.bytes > dataBytes || off < w.dst || off + bytes > w.dst + w.bytes {
        assert !WindowOk(dataBytes, r, Windows(q)[i], PartOff(r, i), PartBytes(r, i));
        return false;
      }
      total := total + w.bytes;
    }
    assert WindowOk(dataBytes, r, Windows(q)[0], PartOff(r, 0), PartBytes(r, 0));
    assert WindowOk(dataBytes, r, Windows(q)[1], PartOff(r, 1), PartBytes(r, 1));
    assert WindowOk(dataBytes, r, Windows(q)[2], PartOff(r, 2), PartBytes(r, 2));
    return total == r.readBytes;
  }

  // ---------------------------------------------------------------- loading one record

  function FileBytes(file: nat -> bv8, off: nat, n: nat): (b: Bytes)
    ensures |b| == n
  {
    seq(n, k requires 0 <= k => file(off + k))
  }

  /** Overwrite `bytes` at `at`; a destination outside the buffer is outside the contract and changes nothing. */
  function Splice(buf: Bytes, at: nat, bytes: Bytes): (out: Bytes)
    ensures |out| == |buf|
  {
    if at + |bytes| <= |buf| then buf[..at] + bytes + buf[at + |bytes|..] else buf
  }

  function ReadWindow(file: nat -> bv8, buf: Bytes, w: Window): (out: Bytes)
    ensures |out| == |buf|
  {
    Splice(buf, w.dst, FileBytes(file, w.src, w.bytes))
  }

  /** What a complete load of record `idx` leaves in a slot that held `buf`: one span, or three scattered ones. */
  function LoadInto(s: Store, idx: nat, buf: Bytes): (out: Bytes)
    requires idx < |s.records| && (s.dtype == GgufQ8 ==> idx < |s.sources|)
    ensures |out| == |buf|
  {
    if s.dtype != GgufQ8 then ReadWindow(s.file, buf, Window(s.records[idx].fileOffset, s.records[idx].readBytes, 0))
    else
      var q := s.sources[idx];
      ReadWindow(s.file, ReadWindow(s.file, ReadWindow(s.file, buf, q.gate), q.up), q.down)
  }

  predicate Covers(w: Window, size: nat, p: nat) {
    w.dst + w.bytes <= size && w.dst <= p < w.dst + w.bytes
  }

  lemma SpliceAt(buf: Bytes, at: nat, bytes: Bytes, p: nat)
    requires p < |buf|
    ensures Splice(buf, at, bytes)[p] ==
      if at + |bytes| <= |buf| && at <= p < at + |bytes| then bytes[p - at] else buf[p]
  {
  }

  /** One window: the bytes it covers come from the file, the others stay. */
  lemma ReadAt(file: nat -> bv8, buf: Bytes, w: Window, p: nat)
    requires p < |buf|
    ensures ReadWindow(file, buf, w)[p] == if Covers(w, |buf|, p) then file(w.src + (p - w.dst)) else buf[p]
  {
    SpliceAt(buf, w.dst, FileBytes(file, w.src, w.bytes), p);
    hide Splice;
  }

  /** Where the bytes of a scattered load come from: the last window that covers a position wins. */
  lemma GgufAt(file: nat -> bv8, buf: Bytes, q: GgufSource, p: nat)
    requires p < |buf|
    ensures ReadWindow(file, ReadWindow(file, ReadWindow(file, buf, q.gate), q.up), q.down)[p] ==
      if Covers(q.down, |buf|, p) then file(q.down.src + (p - q.down.dst))
      else if Covers(q.up, |buf|, p) then file(q.up.src + (p - q.up.dst))
      else if Covers(q.gate, |buf|, p) then file(q.gate.src + (p - q.gate.dst))
      else buf[p]
  {
    hide ReadWindow, Covers;
    var a := ReadWindow(file, buf, q.gate);
    var b := ReadWindow(file, a, q.up);
    ReadAt(file, buf, q.gate, p);
    ReadAt(file, a, q.up, p);
    ReadAt(file, b, q.down, p);
  }

  /** Loading a record again changes nothing: a resident slot is as good as a direct load. */
  lemma LoadIdempotent(s: Store, idx: nat, buf: Bytes)
    requires idx < |s.records| && (s.dtype == GgufQ8 ==> idx < |s.sources|)
    ensures LoadInto(s, idx, LoadInto(s, idx, buf)) == LoadInto(s, idx, buf)
  {
    hide ReadWindow, Covers;
    var once := LoadInto(s, idx, buf);
    var twice := LoadInto(s, idx, once);
    forall p: nat | p < |buf|
      ensures twice[p] == once[p]
    {
      if s.dtype != GgufQ8 {
        var w := Window(s.records[idx].fileOffset, s.records[idx].readBytes, 0);
        ReadAt(s.file, buf, w, p);
        ReadAt(s.file, once, w, p);
      } else {
        var q := s.sources[idx];
        GgufAt(s.file, buf, q, p);
        GgufAt(s.file, once, q, p);
      }
    }
  }
}
