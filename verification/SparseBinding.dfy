/** Opening a store with missing experts: it needs a sidecar mask that names exactly the missing routed experts, and
    binds the router to it. */
module SparseBinding {
  import opened Wrappers
  import opened Indexing
  import opened Lists
  import opened ExpertStore
  import opened Compaction
  import opened Vectors
  import R = Router

  /** A mask file: one layer and expert per line. */
  type MaskFile = seq<(int, int)>

  predicate GoodLine(nLayers: nat, nExperts: nat, x: (int, int)) { 0 <= x.0 < nLayers && 0 <= x.1 < nExperts }

  predicate GoodFile(nLayers: nat, nExperts: nat, f: MaskFile) {
    Distinct(f) && forall i | 0 <= i < |f| :: GoodLine(nLayers, nExperts, f[i])
  }

  function KeyAt(x: (int, int), nExperts: nat): int { x.0 * nExperts + x.1 }

  /** `flags` marks exactly the experts of the file. */
  ghost predicate Marks(nLayers: nat, nExperts: nat, f: MaskFile, flags: seq<bool>) {
    |flags| == nLayers * nExperts &&
    forall l, e | 0 <= l < nLayers && 0 <= e < nExperts ::
      0 <= KeyAt((l, e), nExperts) < |flags| && (flags[KeyAt((l, e), nExperts)] <==> (l, e) in f)
  }

  lemma KeyOk(nLayers: nat, nExperts: nat, x: (int, int))
    requires GoodLine(nLayers, nExperts, x)
    ensures 0 <= KeyAt(x, nExperts) < nLayers * nExperts
  {
    FlatInRange(x.0, x.1, nLayers, nExperts);
  }

  lemma KeysApart(nLayers: nat, nExperts: nat, x: (int, int), y: (int, int))
    requires GoodLine(nLayers, nExperts, x) && GoodLine(nLayers, nExperts, y) && x != y
    ensures KeyAt(x, nExperts) != KeyAt(y, nExperts)
  {
    FlatDistinct(x.0, x.1, y.0, y.1, nExperts);
  }

  lemma MarkOne(nLayers: nat, nExperts: nat, f: MaskFile, flags: seq<bool>, x: (int, int))
    requires Marks(nLayers, nExperts, f, flags) && GoodLine(nLayers, nExperts, x)
    ensures 0 <= KeyAt(x, nExperts) < |flags|
    ensures Marks(nLayers, nExperts, f + [x], flags[KeyAt(x, nExperts) := true])
  {
    hide KeyAt;
    KeyOk(nLayers, nExperts, x);
    forall l, e | 0 <= l < nLayers && 0 <= e < nExperts && (l, e) != x
      ensures KeyAt((l, e), nExperts) != KeyAt(x, nExperts)
    {
      KeysApart(nLayers, nExperts, (l, e), x);
    }
  }

  lemma MarkNone(nLayers: nat, nExperts: nat, flags: seq<bool>)
    requires |flags| == nLayers * nExperts && forall k | 0 <= k < |flags| :: !flags[k]
    ensures Marks(nLayers, nExperts, [], flags)
  {
    forall l, e | 0 <= l < nLayers && 0 <= e < nExperts
      ensures 0 <= KeyAt((l, e), nExperts) < |flags|
    {
      KeyOk(nLayers, nExperts, (l, e));
    }
  }

  /** `read_mask_file`: refuses an id out of range and a repeated line. */
  method ReadMaskFile(f: MaskFile, nLayers: nat, nExperts: nat) returns (r: Option<seq<bool>>, count: nat)
    ensures r.Some? <==> GoodFile(nLayers, nExperts, f)
    ensures r.Some? ==> Marks(nLayers, nExperts, f, r.value) && count == |f|
  {
    hide Marks, KeyAt;
    var disabled := new bool[nLayers * nExperts](_ => false);
    count := 0;
    MarkNone(nLayers, nExperts, disabled[..]);
    for i := 0 to |f|
      invariant GoodFile(nLayers, nExperts, f[..i]) && Marks(nLayers, nExperts, f[..i], disabled[..]) && count == i
    {
      var x := f[i];
      if x.0 < 0 || x.1 < 0 || x.0 >= nLayers || x.1 >= nExperts {
        assert !GoodLine(nLayers, nExperts, f[i]);
        return None, count;
      }
      MarkOne(nLayers, nExperts, f[..i], disabled[..], x);
      MarkSays(nLayers, nExperts, f[..i], disabled[..], x);
      if disabled[KeyAt(x, nExperts)] {
        return None, count;
      }
      assert f[..i + 1] == f[..i] + [x];
      disabled[KeyAt(x, nExperts)] := true;
      count := count + 1;
    }
    assert f[..|f|] == f;
    return Some(disabled[..]), count;
  }

  lemma MarkSays(nLayers: nat, nExperts: nat, f: MaskFile, flags: seq<bool>, x: (int, int))
    requires Marks(nLayers, nExperts, f, flags) && GoodLine(nLayers, nExperts, x)
    ensures 0 <= KeyAt(x, nExperts) < |flags| && (flags[KeyAt(x, nExperts)] <==> x in f)
  {
    assert x == (x.0, x.1);
  }

  // ---------------------------------------------------------------- counting routed records

  function FirstMoe(nLayers: nat): nat { if nLayers > 1 then 1 else 0 }

  /** Keys without a record among `lo .. hi`. */
  function Absent(recordOf: seq<int>, lo: nat, hi: nat): set<int> {
    set k | k in Upto(|recordOf|) && lo <= k < hi && recordOf[k] < 0
  }

  function Present(recordOf: seq<int>, lo: nat, hi: nat): nat
    requires hi <= |recordOf|
    decreases hi
  {
    if hi <= lo then 0 else Present(recordOf, lo, hi - 1) + if recordOf[hi - 1] >= 0 then 1 else 0
  }

  lemma {:induction false} AbsentCard(recordOf: seq<int>, lo: nat, hi: nat)
    requires lo <= hi <= |recordOf|
    ensures |Absent(recordOf, lo, hi)| + Present(recordOf, lo, hi) == hi - lo
    decreases hi
  {
    AbsentStep(recordOf, lo, hi);
    hide Absent;
    if hi > lo {
      AbsentCard(recordOf, lo, hi - 1);
    }
  }

  lemma AbsentStep(recordOf: seq<int>, lo: nat, hi: nat)
    requires lo <= hi <= |recordOf|
    ensures lo == hi ==> Absent(recordOf, lo, hi) == {}
    ensures lo < hi ==> hi - 1 !in Absent(recordOf, lo, hi - 1)
    ensures lo < hi ==>
      Absent(recordOf, lo, hi) == Absent(recordOf, lo, hi - 1) + if recordOf[hi - 1] < 0 then {hi - 1} else {}
  {
  }

  method CountRouted(recordOf: seq<int>, nLayers: nat, nExperts: nat) returns (slots: nat, present: nat)
    requires |recordOf| == nLayers * nExperts
    ensures FirstMoe(nLayers) * nExperts <= |recordOf| && slots == |recordOf| - FirstMoe(nLayers) * nExperts
    ensures present == Present(recordOf, FirstMoe(nLayers) * nExperts, |recordOf|)
  {
    var first := FirstMoe(nLayers);
    var lo := first * nExperts;
    slots, present := 0, 0;
    RowEnd(nLayers, nExperts, first);
    for layer := first to nLayers
      invariant lo + slots == layer * nExperts <= |recordOf| && present == Present(recordOf, lo, layer * nExperts)
    {
      RowEnd(nLayers, nExperts, layer + 1);
      assert (layer + 1) * nExperts == layer * nExperts + nExperts;
      for expert := 0 to nExperts
        invariant lo + slots == layer * nExperts + expert && present == Present(recordOf, lo, layer * nExperts + expert)
      {
        slots := slots + 1;
        if recordOf[layer * nExperts + expert] >= 0 {
          present := present + 1;
        }
      }
    }
  }

  lemma RowEnd(nLayers: nat, nExperts: nat, layer: nat)
    requires layer <= nLayers
    ensures layer * nExperts <= nLayers * nExperts
  {
    BlocksGrow(layer, nLayers, nExperts);
  }

  // ---------------------------------------------------------------- binding

  /** The flags name exactly the routed experts without a record. */
  ghost predicate Exact(recordOf: seq<int>, first: nat, flags: seq<bool>) {
    |flags| == |recordOf| && forall k | 0 <= k < |flags| :: flags[k] <==> (k >= first && recordOf[k] < 0)
  }

  function Flagged(flags: seq<bool>): set<int> { set k | k in Upto(|flags|) && flags[k] }

  lemma ExactCount(recordOf: seq<int>, first: nat, flags: seq<bool>)
    requires Exact(recordOf, first, flags)
    ensures |Flagged(flags)| == |Absent(recordOf, first, |recordOf|)|
  {
    assert Flagged(flags) == Absent(recordOf, first, |recordOf|);
  }

  /** As many flags as lines. */
  lemma {:induction false} MarkedCount(nLayers: nat, nExperts: nat, f: MaskFile, flags: seq<bool>)
    requires GoodFile(nLayers, nExperts, f) && Marks(nLayers, nExperts, f, flags)
    ensures |Flagged(flags)| == |f|
  {
    var keys := seq(|f|, i requires 0 <= i < |f| => KeyAt(f[i], nExperts));
    hide KeyAt, Marks;
    forall i | 0 <= i < |f|
      ensures keys[i] in Flagged(flags)
    {
      assert f[i] in f;
      MarkSays(nLayers, nExperts, f, flags, f[i]);
    }
    forall i, j | 0 <= i < j < |keys|
      ensures keys[i] != keys[j]
    {
      KeysApart(nLayers, nExperts, f[i], f[j]);
    }
    DistinctCard(keys, Flagged(flags));
    forall k | k in Flagged(flags)
      ensures k in keys
    {
      FlagHasLine(nLayers, nExperts, f, flags, k);
      var i :| 0 <= i < |f| && KeyAt(f[i], nExperts) == k;
      assert keys[i] == k;
    }
    CoverCard(keys, Flagged(flags));
  }

  lemma FlagHasLine(nLayers: nat, nExperts: nat, f: MaskFile, flags: seq<bool>, k: nat)
    requires Marks(nLayers, nExperts, f, flags) && k < |flags| && flags[k]
    ensures exists i :: 0 <= i < |f| && KeyAt(f[i], nExperts) == k
  {
    assert nExperts > 0;
    var x: (int, int) := (k / nExperts, k % nExperts);
    assert KeyAt(x, nExperts) == k;
    assert x in f;
    var i :| 0 <= i < |f| && f[i] == x;
  }

  /** The file names exactly the routed experts without a record. */
  ghost predicate FileExact(recordOf: seq<int>, nLayers: nat, nExperts: nat, f: MaskFile)
    requires |recordOf| == nLayers * nExperts
  {
    forall l, e | 0 <= l < nLayers && 0 <= e < nExperts ::
      0 <= KeyAt((l, e), nExperts) < |recordOf| &&
      ((l, e) in f <==> l >= FirstMoe(nLayers) && recordOf[KeyAt((l, e), nExperts)] < 0)
  }

  lemma LayerOfKey(nLayers: nat, nExperts: nat, l: int, e: int, first: nat)
    requires 0 <= l < nLayers && 0 <= e < nExperts
    ensures KeyAt((l, e), nExperts) >= first * nExperts <==> l >= first
  {
    if l >= first {
      assert (l - first) * nExperts >= 0;
    } else {
      assert (first - l - 1) * nExperts >= 0;
      assert first * nExperts == l * nExperts + nExperts + (first - l - 1) * nExperts;
    }
  }

  lemma ExactIff(recordOf: seq<int>, nLayers: nat, nExperts: nat, f: MaskFile, flags: seq<bool>)
    requires |recordOf| == nLayers * nExperts && Marks(nLayers, nExperts, f, flags)
    ensures Exact(recordOf, FirstMoe(nLayers) * nExperts, flags) <==> FileExact(recordOf, nLayers, nExperts, f)
  {
    var first := FirstMoe(nLayers);
    hide FirstMoe, KeyAt;
    forall l, e | 0 <= l < nLayers && 0 <= e < nExperts
      ensures KeyAt((l, e), nExperts) >= first * nExperts <==> l >= first
    {
      LayerOfKey(nLayers, nExperts, l, e, first);
    }
    if FileExact(recordOf, nLayers, nExperts, f) {
      forall k | 0 <= k < |flags|
        ensures flags[k] <==> (k >= first * nExperts && recordOf[k] < 0)
      {
        KeyHasIds(nLayers, nExperts, k);
        var l, e :| 0 <= l < nLayers && 0 <= e < nExperts && KeyAt((l, e), nExperts) == k;
      }
    }
  }

  lemma KeyHasIds(nLayers: nat, nExperts: nat, k: nat)
    requires k < nLayers * nExperts
    ensures exists l, e :: 0 <= l < nLayers && 0 <= e < nExperts && KeyAt((l, e), nExperts) == k
  {
    assert nExperts > 0;
    assert KeyAt((k / nExperts, k % nExperts), nExperts) == k;
  }

  /** One routed layer: each flag says whether the record is absent. */
  method RowMatches(recordOf: seq<int>, flags: seq<bool>, at: nat, n: nat) returns (ok: bool)
    requires at + n <= |recordOf| == |flags|
    ensures ok <==> forall k | at <= k < at + n :: flags[k] <==> recordOf[k] < 0
  {
    for expert := 0 to n
      invariant forall k | at <= k < at + expert :: flags[k] <==> recordOf[k] < 0
    {
      var absent := recordOf[at + expert] < 0;
      if flags[at + expert] != absent {
        return false;
      }
    }
    return true;
  }

  /** One layer without routed experts: no flag. */
  method RowClear(flags: seq<bool>, at: nat, n: nat) returns (ok: bool)
    requires at + n <= |flags|
    ensures ok <==> forall k | at <= k < at + n :: !flags[k]
  {
    for expert := 0 to n
      invariant forall k | at <= k < at + expert :: !flags[k]
    {
      if flags[at + expert] {
        return false;
      }
    }
    return true;
  }

  lemma NextRow(nLayers: nat, nExperts: nat, layer: nat)
    requires layer < nLayers
    ensures (layer + 1) * nExperts == layer * nExperts + nExperts <= nLayers * nExperts
  {
    RowEnd(nLayers, nExperts, layer + 1);
  }

  /** The two comparison loops. */
  method MatchesStore(recordOf: seq<int>, nLayers: nat, nExperts: nat, flags: seq<bool>) returns (mismatch: bool)
    requires |recordOf| == |flags| == nLayers * nExperts
    ensures !mismatch <==> Exact(recordOf, FirstMoe(nLayers) * nExperts, flags)
  {
    var first := FirstMoe(nLayers);
    ghost var lo := first * nExperts;
    RowEnd(nLayers, nExperts, first);
    var layer, at := first, first * nExperts;
    mismatch := false;
    while !mismatch && layer < nLayers
      invariant first <= layer <= nLayers && at == layer * nExperts && lo <= at <= |flags|
      invariant !mismatch ==> forall k | lo <= k < at :: flags[k] <==> recordOf[k] < 0
      invariant mismatch ==> !Exact(recordOf, lo, flags)
      decreases nLayers - layer, !mismatch
    {
      NextRow(nLayers, nExperts, layer);
      var ok := RowMatches(recordOf, flags, at, nExperts);
      mismatch := !ok;
      layer, at := layer + 1, at + nExperts;
    }
    layer, at := 0, 0;
    while !mismatch && layer < first
      invariant 0 <= layer <= first && at == layer * nExperts && at <= lo
      invariant !mismatch ==> forall k | 0 <= k < at :: !flags[k]
      invariant !mismatch ==> forall k | lo <= k < |flags| :: flags[k] <==> recordOf[k] < 0
      invariant mismatch ==> !Exact(recordOf, lo, flags)
      decreases first - layer, !mismatch
    {
      NextRow(first, nExperts, layer);
      var ok := RowClear(flags, at, nExperts);
      mismatch := !ok;
      layer, at := layer + 1, at + nExperts;
    }
  }

  /** What opening decides: no mask in force, a bound mask, or a refusal. */
  datatype Binding = Refused | NoMask | Bound(flags: seq<bool>)

  ghost predicate SameFile(nLayers: nat, nExperts: nat, f: MaskFile, g: MaskFile) {
    forall l, e | 0 <= l < nLayers && 0 <= e < nExperts :: (l, e) in f <==> (l, e) in g
  }

  /** When a sparse store opens: the sidecar is well formed and exact, and a mask requested by the caller, if any, is
      the same set. */
  ghost predicate Opens(recordOf: seq<int>, nLayers: nat, nExperts: nat, sidecar: Option<MaskFile>,
                        requested: Option<MaskFile>)
    requires |recordOf| == nLayers * nExperts
  {
    sidecar.Some? && GoodFile(nLayers, nExperts, sidecar.value) &&
    FileExact(recordOf, nLayers, nExperts, sidecar.value) &&
    (requested.Some? ==>
      GoodFile(nLayers, nExperts, requested.value) && SameFile(nLayers, nExperts, sidecar.value, requested.value))
  }

  ghost predicate Sparse(recordOf: seq<int>, nLayers: nat, nExperts: nat) {
    Absent(recordOf, FirstMoe(nLayers) * nExperts, |recordOf|) != {}
  }

  /** `bind_sparse_q8_mask`: a full store opens exactly without a sidecar, a sparse one exactly with the right one. */
  method BindSparse(dtype: Dtype, recordOf: seq<int>, nLayers: nat, nExperts: nat, sidecar: Option<MaskFile>,
                    requested: Option<MaskFile>)
      returns (r: Binding)
    requires |recordOf| == nLayers * nExperts
    ensures dtype != Q8Row ==> r == NoMask
    ensures dtype == Q8Row && !Sparse(recordOf, nLayers, nExperts) ==> r == if sidecar.Some? then Refused else NoMask
    ensures dtype == Q8Row && Sparse(recordOf, nLayers, nExperts) ==>
      !r.NoMask? && (r.Bound? <==> Opens(recordOf, nLayers, nExperts, sidecar, requested))
    ensures r.Bound? ==>
      Exact(recordOf, FirstMoe(nLayers) * nExperts, r.flags) && Marks(nLayers, nExperts, sidecar.value, r.flags)
  {
    hide Marks, Exact, Absent, Present, FileExact, FirstMoe, SameFile;
    if dtype != Q8Row {
      return NoMask;
    }
    var slots, present := CountRouted(recordOf, nLayers, nExperts);
    ghost var first := FirstMoe(nLayers) * nExperts;
    AbsentCard(recordOf, first, |recordOf|);
    if present == slots {
      return if sidecar.Some? then Refused else NoMask;
    }
    if sidecar.None? {
      return Refused;
    }
    var bound, boundCount := ReadMaskFile(sidecar.value, nLayers, nExperts);
    if bound.None? {
      return Refused;
    }
    MarksLength(nLayers, nExperts, sidecar.value, bound.value);
    MarkedCount(nLayers, nExperts, sidecar.value, bound.value);
    ExactIff(recordOf, nLayers, nExperts, sidecar.value, bound.value);
    if Exact(recordOf, first, bound.value) {
      ExactCount(recordOf, first, bound.value);
    }
    var mismatch := boundCount != slots - present;
    if !mismatch {
      mismatch := MatchesStore(recordOf, nLayers, nExperts, bound.value);
    }
    if mismatch {
      return Refused;
    }
    if requested.Some? {
      var asked, askedCount := ReadMaskFile(requested.value, nLayers, nExperts);
      if asked.None? {
        return Refused;
      }
      MarkedCount(nLayers, nExperts, requested.value, asked.value);
      SameFlags(nLayers, nExperts, sidecar.value, bound.value, requested.value, asked.value);
      if askedCount != boundCount || asked.value != bound.value {
        return Refused;
      }
    }
    return Bound(bound.value);
  }

  /** When a Q8 store opens: its index is accepted, and a full store has no sidecar, a sparse one the right one. */
  ghost predicate StoreOpens(records: seq<Record>, recordOf: seq<int>, nLayers: nat, nExperts: nat,
                             sidecar: Option<MaskFile>, requested: Option<MaskFile>)
    requires |recordOf| == nLayers * nExperts
  {
    IndexOk(records, nLayers, nExperts) &&
    if Sparse(recordOf, nLayers, nExperts)
      then Opens(recordOf, nLayers, nExperts, sidecar, requested) else sidecar.None?
  }

  /** `kvl_expert_store_open` without the data file: the index, then the binding. */
  method OpenStore(dtype: Dtype, records: seq<Record>, nLayers: nat, nExperts: nat, sidecar: Option<MaskFile>,
                   requested: Option<MaskFile>)
      returns (r: Option<seq<int>>, mask: Binding)
    ensures r.Some? ==>
      IndexOk(records, nLayers, nExperts) && MapsRecords(r.value, records, nLayers, nExperts) && !mask.Refused?
    ensures dtype != Q8Row ==> (r.Some? <==> IndexOk(records, nLayers, nExperts)) && !mask.Bound?
    ensures dtype == Q8Row ==> forall recordOf | MapsRecords(recordOf, records, nLayers, nExperts) ::
      r.Some? <==> StoreOpens(records, recordOf, nLayers, nExperts, sidecar, requested)
    ensures r.Some? && mask.Bound? ==> Exact(r.value, FirstMoe(nLayers) * nExperts, mask.flags)
  {
    hide Marks, Exact, FirstMoe, Sparse, Opens, IndexOk;
    mask := Refused;
    r := BuildMap(records, nLayers, nExperts);
    if r.None? {
      return;
    }
    mask := BindSparse(dtype, r.value, nLayers, nExperts, sidecar, requested);
    forall recordOf | MapsRecords(recordOf, records, nLayers, nExperts)
      ensures recordOf == r.value
    {
      OneMap(recordOf, r.value, records, nLayers, nExperts);
    }
    if mask.Refused? {
      r := None;
    }
  }

  lemma OneMap(a: seq<int>, b: seq<int>, records: seq<Record>, nLayers: nat, nExperts: nat)
    requires MapsRecords(a, records, nLayers, nExperts) && MapsRecords(b, records, nLayers, nExperts)
    ensures a == b
  {
    hide KeyOf;
  }

  lemma MarksLength(nLayers: nat, nExperts: nat, f: MaskFile, flags: seq<bool>)
    requires Marks(nLayers, nExperts, f, flags)
    ensures |flags| == nLayers * nExperts
  {
  }

  lemma SameFlags(nLayers: nat, nExperts: nat, f: MaskFile, a: seq<bool>, g: MaskFile, b: seq<bool>)
    requires Marks(nLayers, nExperts, f, a) && Marks(nLayers, nExperts, g, b)
    ensures a == b <==> SameFile(nLayers, nExperts, f, g)
  {
    hide KeyAt;
    if SameFile(nLayers, nExperts, f, g) {
      forall k | 0 <= k < |a|
        ensures a[k] == b[k]
      {
        KeyHasIds(nLayers, nExperts, k);
        var l, e :| 0 <= l < nLayers && 0 <= e < nExperts && KeyAt((l, e), nExperts) == k;
      }
    }
  }

  // ---------------------------------------------------------------- compaction and binding together

  /** The sidecar `write_mask_sidecar` leaves: the mask, one line each. */
  ghost predicate SidecarOf(f: MaskFile, mask: Mask) {
    Distinct(f) && forall x: (int, int) :: x in f <==> x.0 >= 0 && x.1 >= 0 && (x.0 as nat, x.1 as nat) in mask
  }

  lemma RecordIff(records: seq<Record>, recordOf: seq<int>, nLayers: nat, nExperts: nat, l: nat, e: nat)
    requires MapsRecords(recordOf, records, nLayers, nExperts) && IdsInRange(records, nLayers, nExperts) &&
      l < nLayers && e < nExperts
    ensures 0 <= KeyAt((l, e), nExperts) < |recordOf|
    ensures recordOf[KeyAt((l, e), nExperts)] >= 0 <==> (l, e) in Ids(records)
  {
    FlatInRange(l, e, nLayers, nExperts);
    var k := Flat(l, e, nExperts);
    if recordOf[k] >= 0 {
      var r := records[recordOf[k]];
      if r.layer != l || r.expert != e {
        FlatDistinct(r.layer, r.expert, l, e, nExperts);
      }
      assert r in records;
    }
    if (l, e) in Ids(records) {
      var i :| 0 <= i < |records| && IdOf(records[i]) == (l, e);
    }
  }

  /** When the mask covers what is missing: every masked expert is routed, and every routed expert without a record in
      the source is masked. */
  predicate Covers(records: seq<Record>, nLayers: nat, nExperts: nat, mask: Mask) {
    (forall x | x in mask :: x.0 >= FirstMoe(nLayers)) &&
    forall l, e | FirstMoe(nLayers) <= l < nLayers && 0 <= e < nExperts :: (l, e) in Ids(records) || (l, e) in mask
  }

  /** The sidecar of a compacted store is exact if and only if the mask covers what the source was missing. */
  lemma CompactedExactIff(h: Header, records: seq<Record>, mask: Mask, data: Bytes, c: Compacted, recordOf: seq<int>,
                          f: MaskFile)
    requires GoodIndex(h, records) && InRange(h, mask) && Moved(Kept(records, mask), data, c.records, c.data)
    requires IdsInRange(c.records, h.nLayers, h.nExperts) && MapsRecords(recordOf, c.records, h.nLayers, h.nExperts) &&
      SidecarOf(f, mask)
    ensures GoodFile(h.nLayers, h.nExperts, f)
    ensures FileExact(recordOf, h.nLayers, h.nExperts, f) <==> Covers(records, h.nLayers, h.nExperts, mask)
  {
    KeptAre(records, mask);
    MovedIds(Kept(records, mask), data, c.records, c.data);
    forall i | 0 <= i < |f|
      ensures GoodLine(h.nLayers, h.nExperts, f[i])
    {
      assert f[i] in f;
    }
    KeptIds(records, mask);
    hide Kept, Moved, FirstMoe, Ids, GoodIndex, IdsInRange;
    forall l: nat, e: nat | l < h.nLayers && e < h.nExperts
      ensures 0 <= KeyAt((l, e), h.nExperts) < |recordOf|
      ensures recordOf[KeyAt((l, e), h.nExperts)] >= 0 <==> (l, e) in Ids(records) && (l, e) !in mask
    {
      RecordIff(c.records, recordOf, h.nLayers, h.nExperts, l, e);
    }
    hide KeyAt, MapsRecords;
  }

  lemma KeptIds(records: seq<Record>, mask: Mask)
    ensures forall x :: x in Ids(Kept(records, mask)) <==> x in Ids(records) && x !in mask
  {
    KeptAre(records, mask);
  }

  /** `write_mask_sidecar`, in any order of lines. */
  method WriteSidecar(mask: Mask) returns (f: MaskFile)
    ensures SidecarOf(f, mask)
  {
    f := [];
    var todo := mask;
    while todo != {}
      invariant todo <= mask && SidecarOf(f, mask - todo)
      decreases todo
    {
      var x :| x in todo;
      todo := todo - {x};
      assert mask - todo == (mask - (todo + {x})) + {x};
      f := f + [(x.0 as int, x.1 as int)];
    }
    assert mask - todo == mask;
  }

  /** The index of a compacted store is accepted if and only if the mask left a record. */
  lemma CompactedIndex(h: Header, records: seq<Record>, mask: Mask, data: Bytes, c: Compacted)
    requires GoodIndex(h, records) && Moved(Kept(records, mask), data, c.records, c.data)
    ensures IdsInRange(c.records, h.nLayers, h.nExperts) && IdsDistinct(c.records)
    ensures IndexOk(c.records, h.nLayers, h.nExperts) <==> LeavesRecord(records, mask)
  {
    var kept := Kept(records, mask);
    KeptAre(records, mask);
    KeptDistinct(records, mask);
    MovedIds(kept, data, c.records, c.data);
    forall i | 0 <= i < |c.records|
      ensures c.records[i].layer < h.nLayers && c.records[i].expert < h.nExperts
    {
      assert kept[i] in kept && IdOf(c.records[i]) == IdOf(kept[i]);
      var j :| 0 <= j < |records| && records[j] == kept[i];
    }
    if c.records == [] {
      forall r | r in records
        ensures IdOf(r) in mask
      {
        assert r !in kept;
      }
    } else {
      assert kept[0] in kept;
    }
  }

  /** Some expert of the source is not masked.  `compact_store` does not ask for this, the loader does. */
  ghost predicate LeavesRecord(records: seq<Record>, mask: Mask) {
    exists r | r in records :: IdOf(r) !in mask
  }

  /** A compacted store opens with its own sidecar if and only if the mask leaves a record and covers what the source
      was missing. */
  lemma CompactedOpensIff(h: Header, records: seq<Record>, mask: Mask, data: Bytes, c: Compacted, recordOf: seq<int>,
                          f: MaskFile)
    requires GoodIndex(h, records) && mask != {} && InRange(h, mask) &&
      Moved(Kept(records, mask), data, c.records, c.data)
    requires MapsRecords(recordOf, c.records, h.nLayers, h.nExperts) && SidecarOf(f, mask)
    ensures StoreOpens(c.records, recordOf, h.nLayers, h.nExperts, Some(f), None) <==>
            LeavesRecord(records, mask) && Covers(records, h.nLayers, h.nExperts, mask)
  {
    CompactedIndex(h, records, mask, data, c);
    CompactedExactIff(h, records, mask, data, c, recordOf, f);
    hide Moved, Kept, GoodIndex, IndexOk, LeavesRecord;
    if FileExact(recordOf, h.nLayers, h.nExperts, f) {
      var x := SomeMember(mask);
      SomethingAbsent(recordOf, h.nLayers, h.nExperts, f, x, mask);
    }
  }

  lemma SomethingAbsent(recordOf: seq<int>, nLayers: nat, nExperts: nat, f: MaskFile, x: (nat, nat), mask: Mask)
    requires |recordOf| == nLayers * nExperts && FileExact(recordOf, nLayers, nExperts, f) && SidecarOf(f, mask)
    requires x in mask && x.0 < nLayers && x.1 < nExperts
    ensures Sparse(recordOf, nLayers, nExperts)
  {
    var l: int, e: int := x.0, x.1;
    assert (l, e) in f;
    LayerOfKey(nLayers, nExperts, l, e, FirstMoe(nLayers));
    assert KeyAt((l, e), nExperts) in Absent(recordOf, FirstMoe(nLayers) * nExperts, |recordOf|);
  }

  /** A source complete on the routed layers, compacted by a mask of routed experts: only a mask of every record is
      refused. */
  lemma CompleteSourceOpensIff(h: Header, records: seq<Record>, mask: Mask, data: Bytes, c: Compacted,
                               recordOf: seq<int>, f: MaskFile)
    requires GoodIndex(h, records) && mask != {} && InRange(h, mask) &&
      Moved(Kept(records, mask), data, c.records, c.data)
    requires MapsRecords(recordOf, c.records, h.nLayers, h.nExperts) && SidecarOf(f, mask)
    requires forall x | x in mask :: x.0 >= FirstMoe(h.nLayers)
    requires forall l, e | FirstMoe(h.nLayers) <= l < h.nLayers && 0 <= e < h.nExperts :: (l, e) in Ids(records)
    ensures StoreOpens(c.records, recordOf, h.nLayers, h.nExperts, Some(f), None) <==> LeavesRecord(records, mask)
  {
    assert Covers(records, h.nLayers, h.nExperts, mask);
    hide Covers, GoodIndex, InRange, Moved, Kept, FirstMoe, Ids;
    CompactedOpensIff(h, records, mask, data, c, recordOf, f);
  }

  /** It does happen: one routed expert, masked.  The sidecar is right and the binding would accept it, but the index is
      empty. */
  lemma MaskedEmpty(r: Record, data: Bytes, recordOf: seq<int>, f: MaskFile)
    requires AlignedRecord(r) && IdOf(r) == (1, 0)
    requires MapsRecords(recordOf, [], 2, 1) && SidecarOf(f, {(1, 0)})
    ensures GoodIndex(Header(2, 1, |data|), [r]) && Moved(Kept([r], {(1, 0)}), data, [], []) &&
      Covers([r], 2, 1, {(1, 0)})
    ensures Sparse(recordOf, 2, 1) && Opens(recordOf, 2, 1, Some(f), None) &&
      !StoreOpens([], recordOf, 2, 1, Some(f), None)
  {
    var h, mask: Mask := Header(2, 1, |data|), {(1, 0)};
    assert Kept([r], mask) == [] by {
      assert [r][..0] == [];
    }
    assert r in [r];
    assert Covers([r], 2, 1, mask);
    hide Covers, Kept;
    CompactedExactIff(h, [r], mask, data, Compacted([], []), recordOf, f);
    SomethingAbsent(recordOf, 2, 1, f, (1, 0), mask);
  }

  /** The experts of one layer the bound mask disables. */
  function LayerFlags(flags: seq<bool>, nExperts: nat, layer: nat): seq<bool>
    requires layer * nExperts + nExperts <= |flags|
  {
    flags[layer * nExperts..layer * nExperts + nExperts]
  }

  predicate Recorded(recordOf: seq<int>, k: int) { 0 <= k < |recordOf| && recordOf[k] >= 0 }

  lemma EnabledRecorded(recordOf: seq<int>, first: nat, flags: seq<bool>, base: nat, n: nat, ids: seq<int>)
    requires Exact(recordOf, first, flags) && first <= base && base + n <= |flags|
    requires forall i | 0 <= i < |ids| :: 0 <= ids[i] < n && !R.Flag(flags[base..base + n], ids[i])
    ensures forall i | 0 <= i < |ids| :: Recorded(recordOf, base + ids[i])
  {
    forall i | 0 <= i < |ids|
      ensures Recorded(recordOf, base + ids[i])
    {
      assert flags[base..base + n][ids[i]] == flags[base + ids[i]];
    }
  }

  /** Under the bound mask every id the masked router returns for a routed layer has a record. */
  lemma RoutedIdsHaveRecords(recordOf: seq<int>, nLayers: nat, nExperts: nat, flags: seq<bool>, layer: nat,
                             cfg: R.Config, scores: Vec, bias: Vec)
    requires |recordOf| == nLayers * nExperts && Exact(recordOf, FirstMoe(nLayers) * nExperts, flags)
    requires layer < nLayers && (nLayers > 1 ==> layer >= 1)
    requires cfg.nExperts == nExperts && layer * nExperts + nExperts <= |flags|
    requires R.RouteMasked(cfg, scores, bias, LayerFlags(flags, nExperts, layer)).Some?
    ensures var ids := R.RouteMasked(cfg, scores, bias, LayerFlags(flags, nExperts, layer)).value.ids;
            forall i | 0 <= i < |ids| :: Recorded(recordOf, layer * nExperts + ids[i])
  {
    hide R.RouteMasked, Exact, Recorded;
    var off := LayerFlags(flags, nExperts, layer);
    R.MaskedIdsEnabled(cfg, scores, bias, off);
    var ids := R.RouteMasked(cfg, scores, bias, off).value.ids;
    RowEnd(layer, nExperts, FirstMoe(nLayers));
    EnabledRecorded(recordOf, FirstMoe(nLayers) * nExperts, flags, layer * nExperts, nExperts, ids);
  }
}
