/** Which experts one decode step pins: the selection loops and `pin_routes`. */
module LayerPins {
  import opened Wrappers
  import opened Lists
  import opened TopK
  import opened Vectors
  import opened Router
  import opened RouterLoops
  import opened PinChoice
  import opened ExpertStore
  import opened CacheModel
  import opened ExpertCache

  const LAST_LAYER := 26

  /** Experts of a layer whose key is pinned. */
  function PinnedExperts(pins: set<int>, s: Store, layer: int): set<int> {
    if 0 <= layer < s.nLayers then set e | e in Upto(s.nExperts) && layer * s.nExperts + e in pins else {}
  }

  /** `layerpin_is_pinned`. */
  method IsPinned(c: Cache, layer: int, expert: int) returns (b: bool)
    requires c.Valid()
    ensures b <==> expert in PinnedExperts(c.Pins(), c.store, layer)
  {
    if c.pinned == null || layer < 0 || layer >= c.store.nLayers || expert < 0 || expert >= c.store.nExperts {
      return false;
    }
    LayerInRange(c.store, layer);
    return c.pinned[layer * c.store.nExperts + expert];
  }

  /** The hysteresis pass over the routes. */
  method RetainLoop(c: Cache, layer: int, ids: seq<int>, weights: Vec) returns (pins: seq<int>)
    requires c.Valid()
    ensures pins == Retained(ids, weights, PinnedExperts(c.Pins(), c.store, layer))
  {
    hide Padded, TopOf, Sound;
    ghost var pinned := PinnedExperts(c.Pins(), c.store, layer);
    hide PinnedExperts;
    var keep := NewBest(NPin(|ids|));
    PaddedLength([], NPin(|ids|));
    StartSelected(keep);
    for j := 0 to |ids|
      invariant c.Valid() && PinnedExperts(c.Pins(), c.store, layer) == pinned && keep.Length == NPin(|ids|)
      invariant Selected(keep, PinnedItems(ids, weights, pinned, j))
    {
      var was := IsPinned(c, layer, ids[j]);
      if was {
        Stream(keep, Choice(Fin(At(weights, j)), j), PinnedItems(ids, weights, pinned, j));
      } else {
        assert PinnedItems(ids, weights, pinned, j + 1) == PinnedItems(ids, weights, pinned, j);
      }
    }
    ghost var items := PinnedItems(ids, weights, pinned, |ids|);
    PinnedItemsAre(ids, weights, pinned, |ids|);
    TopOfIn(items, NPin(|ids|));
    pins := CollectExperts(keep, ids, items);
  }

  method CollectExperts(keep: array<Choice>, ids: seq<int>, ghost items: seq<Choice>) returns (pins: seq<int>)
    requires Selected(keep, items) && forall c | c in TopOf(items, keep.Length) :: c.id < |ids|
    ensures pins == Experts(ids, TopOf(items, keep.Length))
  {
    ghost var live := TopOf(items, keep.Length);
    hide TopOf;
    pins := [];
    for p := 0 to keep.Length
      invariant pins == Experts(ids, live[..if p <= |live| then p else |live|])
    {
      PaddedAt(live, keep.Length, p);
      assert keep[..][p] == keep[p];
      if p < |live| {
        assert live[..p + 1][..p] == live[..p] && live[p] in live;
      }
      if keep[p].id >= 0 && ids[keep[p].id] !in pins {
        pins := pins + [ids[keep[p].id]];
      }
    }
    assert live[..|live|] == live;
  }

  /** The loop that fills the remaining pin slots. */
  method FillLoop(ids: seq<int>, weights: Vec, start: seq<int>, nPin: nat) returns (r: Option<seq<int>>)
    ensures r == Fill(ids, weights, start, nPin)
    ensures r.Some? ==> start <= r.value && FilledByWeight(ids, weights, r.value, |start|)
  {
    FillByWeight(ids, weights, start, nPin);
    hide FilledByWeight;
    var pins := start;
    while |pins| < nPin
      invariant Fill(ids, weights, pins, nPin) == Fill(ids, weights, start, nPin)
      decreases nPin - |pins|
    {
      var best := -1;
      for j := 0 to |ids|
        invariant best == Heaviest(ids, weights, pins, j)
      {
        if ids[j] !in pins && (best < 0 || At(weights, j) > At(weights, best)) {
          best := j;
        }
      }
      if best < 0 {
        return None;
      }
      pins := pins + [ids[best]];
    }
    return Some(pins);
  }

  predicate Roomy(c: Cache, topK: nat) {
    c.store.nLayers >= 2 && c.nSlots >= (c.store.nLayers - 1) * PIN_COUNT + topK
  }

  /** `pin_routes`. */
  method PinRoutes(c: Cache, layer: int, ids: seq<int>, weights: Vec, hysteresis: bool)
      returns (ok: bool, retained: nat)
    requires c.Valid()
    modifies c`pinned, c.pinned
    ensures c.Valid() && c.View() == old(c.View()) && (c.pinned == old(c.pinned) || fresh(c.pinned))
    ensures !ok ==> c.Pins() == old(c.Pins()) && c.pinned == old(c.pinned)
    ensures |ids| == 0 ==>
      (ok <==> 0 <= layer < c.store.nLayers) && retained == 0 &&
      (ok ==> c.pinned != null && c.Pins() == old(c.Pins()) - LayerKeys(c.store, layer))
    ensures |ids| > 0 ==>
      var pinned := old(PinnedExperts(c.Pins(), c.store, layer));
      var useOld := hysteresis && old(c.pinned) != null;
      var pins := PinsFor(ids, weights, pinned, useOld);
      (ok <==> Roomy(c, |ids|) && pins.Some? && 0 <= layer < c.store.nLayers && |pins.value| <= c.store.nExperts &&
               forall i | 0 <= i < |pins.value| :: KeyFor(c.store, layer, pins.value[i]) >= 0) &&
      (ok ==>
        c.pinned != null &&
        c.Pins() == (old(c.Pins()) - LayerKeys(c.store, layer)) + Members(KeysFor(c.store, layer, pins.value))) &&
      (ok ==> retained == if useOld then |Retained(ids, weights, pinned)| else 0)
  {
    hide Sound, Fill, Retained, KeyFor, PinnedExperts;
    ok, retained := false, 0;
    var nPin := NPin(|ids|);
    if nPin <= 0 {
      ok := c.PinLayer(layer, []);
      assert KeysFor(c.store, layer, []) == [] && Members([]) == {};
      return;
    }
    if c.store.nLayers - 1 <= 0 || c.nSlots < (c.store.nLayers - 1) * PIN_COUNT + |ids| {
      return;
    }
    var pins := [];
    if hysteresis && c.pinned != null {
      pins := RetainLoop(c, layer, ids, weights);
      retained := |pins|;
    }
    var all := FillLoop(ids, weights, pins, nPin);
    if all.None? {
      return;
    }
    ok := c.PinLayer(layer, all.value);
  }
}
