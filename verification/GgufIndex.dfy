/** The sidecar index over a GGUF file: three aligned windows per expert, laid out one after the other in a slot. */
module GgufIndex {
  import opened ExpertStore

  function AlignDown(x: nat): nat { x / ALIGN * ALIGN }

  function AlignUp(x: nat): nat { (x + ALIGN - 1) / ALIGN * ALIGN }

  /** One tensor part of one expert: its raw position, the aligned window around it, the offset inside the window. */
  datatype Part = Part(raw: nat, src: nat, sub: nat, read: nat, bytes: nat)

  function PartInfo(dataOffset: nat, sliceBytes: nat, expert: nat): Part {
    var raw := dataOffset + expert * sliceBytes;
    var src := AlignDown(raw);
    Part(raw, src, raw - src, AlignUp(raw - src + sliceBytes), sliceBytes)
  }

  /** The running `dst` of the indexer over the three parts. */
  function Layout(layer: nat, expert: nat, gate: Part, up: Part, down: Part): (Record, GgufSource) {
    var g0 := AlignUp(0);
    var u0 := AlignUp(g0 + gate.read);
    var d0 := AlignUp(u0 + up.read);
    var readBytes := d0 + down.read;
    var fileSort := Min(gate.src, Min(up.src, down.src));
    (Record(layer, expert, fileSort, readBytes, gate.bytes + up.bytes + down.bytes,
            g0 + gate.sub, gate.bytes, u0 + up.sub, up.bytes, d0 + down.sub, down.bytes),
     GgufSource(Window(gate.src, gate.read, g0), Window(up.src, up.read, u0), Window(down.src, down.read, d0)))
  }

  function Min(a: nat, b: nat): nat { if a <= b then a else b }

  lemma Aligned(x: nat)
    ensures AlignDown(x) <= x < AlignDown(x) + ALIGN && AlignDown(x) % ALIGN == 0
    ensures x <= AlignUp(x) < x + ALIGN && AlignUp(x) % ALIGN == 0
    ensures x % ALIGN == 0 ==> AlignUp(x) == x
  {
  }

  /** The aligned window of a part holds its whole slice. */
  predicate GoodPart(p: Part) {
    p.src % ALIGN == 0 && p.read % ALIGN == 0 && p.src + p.sub == p.raw && p.sub + p.bytes <= p.read
  }

  /** The indexer's window is good, and shorter than one page more than it must be; it is empty only for an empty
      aligned slice. */
  lemma PartCovers(dataOffset: nat, sliceBytes: nat, expert: nat)
    ensures var p := PartInfo(dataOffset, sliceBytes, expert);
            GoodPart(p) && p.sub < ALIGN && p.read < p.sub + p.bytes + ALIGN &&
            (p.read == 0 <==> sliceBytes == 0 && p.sub == 0)
  {
    var p := PartInfo(dataOffset, sliceBytes, expert);
    Aligned(p.raw);
    Aligned(p.sub + sliceBytes);
  }

  /** The three windows lie end to end: they tile the record without gap or overlap. */
  lemma WindowsTile(layer: nat, expert: nat, gate: Part, up: Part, down: Part)
    requires GoodPart(gate) && GoodPart(up) && GoodPart(down)
    ensures var (r, q) := Layout(layer, expert, gate, up, down);
            q.gate.dst == 0 && q.up.dst == q.gate.bytes && q.down.dst == q.up.dst + q.up.bytes &&
            r.readBytes == q.down.dst + q.down.bytes && r.readBytes % ALIGN == 0
  {
    Aligned(0);
    Aligned(gate.read);
    assert (gate.read + up.read) % ALIGN == 0;
    Aligned(gate.read + up.read);
    assert (gate.read + up.read + down.read) % ALIGN == 0;
  }

  /** The loader accepts the record exactly when no window is empty and all three end inside the file. */
  lemma Accepted(layer: nat, expert: nat, gate: Part, up: Part, down: Part, dataBytes: nat)
    requires GoodPart(gate) && GoodPart(up) && GoodPart(down)
    ensures var (r, q) := Layout(layer, expert, gate, up, down);
            SourceOk(dataBytes, r, q) <==>
            gate.read > 0 && up.read > 0 && down.read > 0 &&
            gate.src + gate.read <= dataBytes && up.src + up.read <= dataBytes && down.src + down.read <= dataBytes
  {
    WindowsTile(layer, expert, gate, up, down);
  }

  /** The `n` bytes of the slot at `off` are those of the file at `src`. */
  predicate ShowsAt(file: nat -> bv8, out: Bytes, off: nat, src: nat, n: nat) {
    off + n <= |out| && out[off..off + n] == FileBytes(file, src, n)
  }

  /** The part offsets of the record show the slices of the file. */
  predicate Shows(file: nat -> bv8, r: Record, out: Bytes, gate: Part, up: Part, down: Part) {
    r.gateBytes == gate.bytes && r.upBytes == up.bytes && r.downBytes == down.bytes &&
    ShowsAt(file, out, r.gateOff, gate.raw, gate.bytes) &&
    ShowsAt(file, out, r.upOff, up.raw, up.bytes) &&
    ShowsAt(file, out, r.downOff, down.raw, down.bytes)
  }

  /** A read shows every part of its window. */
  lemma WindowShows(file: nat -> bv8, buf: Bytes, w: Window, sub: nat, n: nat)
    requires w.dst + w.bytes <= |buf| && sub + n <= w.bytes
    ensures ShowsAt(file, ReadWindow(file, buf, w), w.dst + sub, w.src + sub, n)
  {
    hide ReadWindow;
    var shown := ReadWindow(file, buf, w)[w.dst + sub..w.dst + sub + n];
    forall k: nat | k < n
      ensures shown[k] == FileBytes(file, w.src + sub, n)[k]
    {
      ReadAt(file, buf, w, w.dst + sub + k);
    }
  }

  /** A read elsewhere leaves what is shown. */
  lemma WindowKeeps(file: nat -> bv8, buf: Bytes, w: Window, off: nat, src: nat, n: nat)
    requires ShowsAt(file, buf, off, src, n) && (off + n <= w.dst || w.dst + w.bytes <= off)
    ensures ShowsAt(file, ReadWindow(file, buf, w), off, src, n)
  {
    hide ReadWindow;
    var shown := ReadWindow(file, buf, w)[off..off + n];
    forall k: nat | k < n
      ensures shown[k] == buf[off..off + n][k]
    {
      ReadAt(file, buf, w, off + k);
    }
    assert shown == buf[off..off + n];
  }

  /** Three windows end to end: each part shown after its own read is still shown after the last. */
  lemma ThreeWindows(file: nat -> bv8, buf: Bytes, q: GgufSource, gate: Part, up: Part, down: Part)
    requires GoodPart(gate) && GoodPart(up) && GoodPart(down)
    requires q.gate == Window(gate.src, gate.read, 0) && q.up == Window(up.src, up.read, gate.read)
    requires q.down == Window(down.src, down.read, gate.read + up.read) && gate.read + up.read + down.read <= |buf|
    ensures var out := ReadWindow(file, ReadWindow(file, ReadWindow(file, buf, q.gate), q.up), q.down);
            ShowsAt(file, out, gate.sub, gate.raw, gate.bytes) &&
            ShowsAt(file, out, gate.read + up.sub, up.raw, up.bytes) &&
            ShowsAt(file, out, gate.read + up.read + down.sub, down.raw, down.bytes)
  {
    hide ReadWindow, ShowsAt;
    var a := ReadWindow(file, buf, q.gate);
    var b := ReadWindow(file, a, q.up);
    WindowShows(file, buf, q.gate, gate.sub, gate.bytes);
    WindowKeeps(file, a, q.up, gate.sub, gate.raw, gate.bytes);
    WindowKeeps(file, b, q.down, gate.sub, gate.raw, gate.bytes);
    WindowShows(file, a, q.up, up.sub, up.bytes);
    WindowKeeps(file, b, q.down, gate.read + up.sub, up.raw, up.bytes);
    WindowShows(file, b, q.down, down.sub, down.bytes);
  }

  /** Scatter round trip: after the three reads, the gate, up and down offsets of the record show the original
      slices of the file, byte for byte, whatever the slot held before. */
  lemma ScatterRoundTrip(layer: nat, expert: nat, gate: Part, up: Part, down: Part, s: Store, idx: nat, buf: Bytes)
    requires GoodPart(gate) && GoodPart(up) && GoodPart(down)
    requires s.dtype == GgufQ8 && idx < |s.records| == |s.sources|
    requires (s.records[idx], s.sources[idx]) == Layout(layer, expert, gate, up, down) &&
      s.records[idx].readBytes <= |buf|
    ensures Shows(s.file, s.records[idx], LoadInto(s, idx, buf), gate, up, down)
  {
    WindowsTile(layer, expert, gate, up, down);
    hide GoodPart, AlignUp, ReadWindow, ShowsAt;
    ThreeWindows(s.file, buf, s.sources[idx], gate, up, down);
  }
}
