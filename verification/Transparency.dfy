/** What a cached expert shows does not depend on the cache: its parts are those of a direct load. */
module Transparency {
  import opened ExpertStore
  import opened GgufIndex
  import opened CacheModel
  import opened ExpertCache

  /** The three weight blocks `publish_out` hands out. */
  datatype Expert = Expert(gate: Bytes, up: Bytes, down: Bytes)

  function Cut(bytes: Bytes, off: nat, n: nat): Bytes {
    if off + n <= |bytes| then bytes[off..off + n] else []
  }

  function Shown(r: Record, bytes: Bytes): Expert {
    Expert(Cut(bytes, r.gateOff, r.gateBytes), Cut(bytes, r.upOff, r.upBytes), Cut(bytes, r.downOff, r.downBytes))
  }

  predicate Loadable(st: Store, rec: int) { 0 <= rec < |st.records| && (st.dtype == GgufQ8 ==> rec < |st.sources|) }

  /** A load of the record into a clean buffer. */
  function Direct(st: Store, rec: nat, size: nat): (bytes: Bytes)
    requires Loadable(st, rec)
    ensures |bytes| == size
  {
    LoadInto(st, rec, seq(size, _ => 0))
  }

  /** The expert of a key, by a direct load of its record. */
  function DirectExpert(st: Store, size: nat, key: int): Expert {
    if 0 <= key < |st.recordOf| && Loadable(st, st.recordOf[key])
    then Shown(st.records[st.recordOf[key]], Direct(st, st.recordOf[key], size))
    else Expert([], [], [])
  }

  /** The parts lie inside the record.  The loader checks this for a GGUF store, window by window. */
  predicate PartsInside(st: Store) {
    st.dtype == GgufQ8 ||
    forall i | 0 <= i < |st.records| ::
      var r := st.records[i];
      r.gateOff + r.gateBytes <= r.readBytes && r.upOff + r.upBytes <= r.readBytes &&
      r.downOff + r.downBytes <= r.readBytes
  }

  /** A load decides the byte at `p`. */
  predicate Decided(st: Store, rec: nat, size: nat, p: nat)
    requires Loadable(st, rec)
  {
    if st.dtype != GgufQ8 then Covers(Window(st.records[rec].fileOffset, st.records[rec].readBytes, 0), size, p)
    else
      var q := st.sources[rec];
      Covers(q.gate, size, p) || Covers(q.up, size, p) || Covers(q.down, size, p)
  }

  /** A decided byte does not depend on what the buffer held. */
  lemma SameByte(st: Store, rec: nat, a: Bytes, b: Bytes, p: nat)
    requires Loadable(st, rec) && |a| == |b| && p < |a| && Decided(st, rec, |a|, p)
    ensures LoadInto(st, rec, a)[p] == LoadInto(st, rec, b)[p]
  {
    hide ReadWindow, Covers;
    if st.dtype != GgufQ8 {
      var w := Window(st.records[rec].fileOffset, st.records[rec].readBytes, 0);
      ReadAt(st.file, a, w, p);
      ReadAt(st.file, b, w, p);
    } else {
      GgufAt(st.file, a, st.sources[rec], p);
      GgufAt(st.file, b, st.sources[rec], p);
    }
  }

  lemma SameCut(st: Store, rec: nat, bytes: Bytes, off: nat, n: nat)
    requires Loaded(st, rec, bytes) && off + n <= |bytes| &&
      forall p: nat | off <= p < off + n :: Decided(st, rec, |bytes|, p)
    ensures Cut(bytes, off, n) == Cut(Direct(st, rec, |bytes|), off, n)
  {
    var clean := seq(|bytes|, _ => 0 as bv8);
    var a, b := Cut(bytes, off, n), Cut(Direct(st, rec, |bytes|), off, n);
    hide LoadInto, Decided;
    forall k: nat | k < n
      ensures a[k] == b[k]
    {
      SameByte(st, rec, bytes, clean, off + k);
    }
  }

  /** The bytes of a window are decided. */
  lemma WindowDecides(st: Store, rec: nat, size: nat)
    requires Opened(st) && PartsInside(st) && Loadable(st, rec) && st.records[rec].readBytes <= size
    ensures var r := st.records[rec];
            (forall p: nat | r.gateOff <= p < r.gateOff + r.gateBytes :: Decided(st, rec, size, p)) &&
            (forall p: nat | r.upOff <= p < r.upOff + r.upBytes :: Decided(st, rec, size, p)) &&
            (forall p: nat | r.downOff <= p < r.downOff + r.downBytes :: Decided(st, rec, size, p))
    ensures var r := st.records[rec];
            r.gateOff + r.gateBytes <= size && r.upOff + r.upBytes <= size && r.downOff + r.downBytes <= size
  {
    hide MapsRecords;
  }

  /** Transparency: whatever the slot held before, a loaded record shows what a direct load shows. */
  lemma LoadedShows(st: Store, rec: nat, bytes: Bytes)
    requires Opened(st) && PartsInside(st) && Loaded(st, rec, bytes)
    ensures Shown(st.records[rec], bytes) == Shown(st.records[rec], Direct(st, rec, |bytes|))
  {
    var r := st.records[rec];
    WindowDecides(st, rec, |bytes|);
    hide Opened, PartsInside, Decided, Cut, Direct, Loaded;
    SameCut(st, rec, bytes, r.gateOff, r.gateBytes);
    SameCut(st, rec, bytes, r.upOff, r.upBytes);
    SameCut(st, rec, bytes, r.downOff, r.downBytes);
  }

  /** `publish_out`: the parts of the record in a resident slot, which are those of a direct load. */
  method HandOut(c: Cache, slot: nat, ghost key: int) returns (e: Expert)
    requires c.Valid() && c.Holds(slot, key)
    ensures PartsInside(c.store) ==> e == DirectExpert(c.store, c.slotBytes, key)
  {
    Width(c, slot);
    hide Sound, Loaded, PartsInside;
    e := Shown(c.store.records[c.recordOfSlot[slot]], c.arena[slot]);
    if PartsInside(c.store) {
      LoadedShows(c.store, c.recordOfSlot[slot], c.arena[slot]);
    }
  }

  lemma Width(c: Cache, slot: nat)
    requires c.Valid() && slot < c.nSlots && slot < c.recordOfSlot.Length && slot < c.arena.Length
    requires Loaded(c.store, c.recordOfSlot[slot], c.arena[slot])
    ensures |c.arena[slot]| == c.slotBytes && Opened(c.store) && Loadable(c.store, c.recordOfSlot[slot])
  {
  }

  /** The experts of a list of ids, by direct loads. */
  function DirectExperts(st: Store, size: nat, layer: nat, ids: seq<int>): (es: seq<Expert>)
    ensures |es| == |ids|
  {
    seq(|ids|, j requires 0 <= j < |ids| => DirectExpert(st, size, KeyFor(st, layer, ids[j])))
  }

  // ---------------------------------------------------------------- which bytes an expert is

  /** The record behind the key of two ids is the one with these ids. */
  lemma RecordOfKey(st: Store, size: nat, layer: nat, expert: nat)
    requires Opened(st) && Fetchable(st, size, KeyFor(st, layer, expert)) >= 0
    ensures var key := KeyFor(st, layer, expert);
            0 <= key < |st.recordOf| && Loadable(st, st.recordOf[key]) &&
            var r := st.records[st.recordOf[key]];
            r.layer == layer && r.expert == expert && r.readBytes <= size
  {
    FindCorrect(st, layer, expert);
  }

  /** A plain store: the blocks of an expert are the file bytes at the part offsets of the record with its ids. */
  lemma PlainExpert(st: Store, size: nat, layer: nat, expert: nat)
    requires Opened(st) && PartsInside(st) && st.dtype != GgufQ8
    requires Fetchable(st, size, KeyFor(st, layer, expert)) >= 0
    ensures exists i :: 0 <= i < |st.records| && st.records[i].layer == layer && st.records[i].expert == expert &&
              var r := st.records[i];
              DirectExpert(st, size, KeyFor(st, layer, expert)) ==
              Expert(FileBytes(st.file, r.fileOffset + r.gateOff, r.gateBytes),
                     FileBytes(st.file, r.fileOffset + r.upOff, r.upBytes),
                     FileBytes(st.file, r.fileOffset + r.downOff, r.downBytes))
  {
    RecordOfKey(st, size, layer, expert);
    var rec := st.recordOf[KeyFor(st, layer, expert)];
    var r := st.records[rec];
    hide Opened, FileBytes, ReadWindow, Cut, KeyFor, Fetchable;
    var clean := seq(size, _ => 0 as bv8);
    var w := Window(r.fileOffset, r.readBytes, 0);
    assert Direct(st, rec, size) == ReadWindow(st.file, clean, w);
    PlainCut(st.file, clean, w, r.gateOff, r.gateBytes);
    PlainCut(st.file, clean, w, r.upOff, r.upBytes);
    PlainCut(st.file, clean, w, r.downOff, r.downBytes);
  }

  lemma PlainCut(file: nat -> bv8, buf: Bytes, w: Window, off: nat, n: nat)
    requires w.dst == 0 && w.bytes <= |buf| && off + n <= w.bytes
    ensures Cut(ReadWindow(file, buf, w), off, n) == FileBytes(file, w.src + off, n)
  {
    WindowShows(file, buf, w, off, n);
    hide ReadWindow, FileBytes;
  }

  /** An indexed GGUF store: the blocks of an expert are its slices of the three tensors. */
  lemma SlicedExpert(st: Store, size: nat, layer: nat, expert: nat, gate: nat, up: nat, down: nat,
                     gateSlice: nat, upSlice: nat, downSlice: nat)
    requires Opened(st) && st.dtype == GgufQ8 && Fetchable(st, size, KeyFor(st, layer, expert)) >= 0
    requires forall i | 0 <= i < |st.records| == |st.sources| && st.records[i].layer == layer &&
      st.records[i].expert == expert ::
      (st.records[i], st.sources[i]) ==
      Layout(layer, expert, PartInfo(gate, gateSlice, expert), PartInfo(up, upSlice, expert),
             PartInfo(down, downSlice, expert))
    ensures DirectExpert(st, size, KeyFor(st, layer, expert)) ==
            Expert(FileBytes(st.file, gate + expert * gateSlice, gateSlice),
                   FileBytes(st.file, up + expert * upSlice, upSlice),
                   FileBytes(st.file, down + expert * downSlice, downSlice))
  {
    RecordOfKey(st, size, layer, expert);
    var rec := st.recordOf[KeyFor(st, layer, expert)];
    var g, u, d := PartInfo(gate, gateSlice, expert), PartInfo(up, upSlice, expert), PartInfo(down, downSlice, expert);
    PartCovers(gate, gateSlice, expert);
    PartCovers(up, upSlice, expert);
    PartCovers(down, downSlice, expert);
    assert |st.sources| == |st.records|;
    hide Opened, FileBytes, LoadInto, Layout, GoodPart, KeyFor, Fetchable, PartInfo, Shows, Shown;
    ScatterRoundTrip(layer, expert, g, u, d, st, rec, seq(size, _ => 0 as bv8));
    ShownSlices(st.file, st.records[rec], Direct(st, rec, size), g, u, d);
    SliceOf(gate, gateSlice, expert);
    SliceOf(up, upSlice, expert);
    SliceOf(down, downSlice, expert);
  }

  lemma ShownSlices(file: nat -> bv8, r: Record, bytes: Bytes, gate: Part, up: Part, down: Part)
    requires Shows(file, r, bytes, gate, up, down)
    ensures Shown(r, bytes) == Expert(FileBytes(file, gate.raw, gate.bytes), FileBytes(file, up.raw, up.bytes),
                                      FileBytes(file, down.raw, down.bytes))
  {
    hide FileBytes;
  }

  lemma SliceOf(dataOffset: nat, sliceBytes: nat, expert: nat)
    ensures var p := PartInfo(dataOffset, sliceBytes, expert);
            p.raw == dataOffset + expert * sliceBytes && p.bytes == sliceBytes
  {
  }
}
