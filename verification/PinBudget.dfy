/** Why two pins per routed layer and one batch of routes fit the cache, and what a pinned decode step guarantees. */
module PinBudget {
  import opened Lists
  import opened Vectors
  import opened PinChoice
  import opened ExpertStore
  import opened CacheModel
  import opened BatchPlan
  import opened ExpertCache
  import opened CacheRuns
  import opened LayerPins
  import opened Transparency

  // ---------------------------------------------------------------- counting pins

  function InLayer(pins: set<int>, layer: nat, experts: nat): set<int> {
    set k | k in pins && layer * experts <= k < layer * experts + experts
  }

  /** At most two pins on a routed layer, none on the dense layer 0. */
  ghost predicate WithinBudget(pins: set<int>, layers: nat, experts: nat) {
    (forall k | k in pins :: 0 <= k < layers * experts) &&
    forall l: nat | l < layers :: |InLayer(pins, l, experts)| <= if l == 0 then 0 else PIN_COUNT
  }

  function Below(pins: set<int>, bound: int): set<int> { set k | k in pins && k < bound }

  lemma {:induction false} BudgetBelow(pins: set<int>, layers: nat, experts: nat, l: nat)
    requires WithinBudget(pins, layers, experts) && l <= layers
    ensures |Below(pins, l * experts)| <= if l == 0 then 0 else (l - 1) * PIN_COUNT
  {
    if l == 0 {
      assert Below(pins, 0) == {};
    } else {
      BudgetBelow(pins, layers, experts, l - 1);
      assert l * experts == (l - 1) * experts + experts;
      var low, layer := Below(pins, (l - 1) * experts), InLayer(pins, l - 1, experts);
      assert Below(pins, l * experts) == low + layer;
    }
  }

  /** All pins together leave room for one batch. */
  lemma BudgetTotal(pins: set<int>, layers: nat, experts: nat)
    requires WithinBudget(pins, layers, experts) && layers >= 1
    ensures |pins| <= (layers - 1) * PIN_COUNT
  {
    BudgetBelow(pins, layers, experts, layers);
    assert Below(pins, layers * experts) == pins;
  }

  lemma OtherLayer(k: int, l: nat, m: nat, experts: nat)
    requires l != m && l * experts <= k < l * experts + experts
    ensures !(m * experts <= k < m * experts + experts)
  {
    if l < m {
      assert m * experts >= (l + 1) * experts;
    } else {
      assert l * experts >= (m + 1) * experts;
    }
  }

  /** Replacing the pins of one routed layer by at most two keys of that layer stays within the budget. */
  lemma ReplaceWithin(pins: set<int>, fresh_: seq<int>, layers: nat, experts: nat, layer: nat)
    requires WithinBudget(pins, layers, experts) && 1 <= layer < layers && |fresh_| <= PIN_COUNT
    requires forall k | k in fresh_ :: layer * experts <= k < layer * experts + experts
    requires layer * experts + experts <= layers * experts
    ensures WithinBudget((pins - InLayer(pins, layer, experts)) + Members(fresh_), layers, experts)
  {
    var next := (pins - InLayer(pins, layer, experts)) + Members(fresh_);
    forall l: nat | l < layers
      ensures |InLayer(next, l, experts)| <= if l == 0 then 0 else PIN_COUNT
    {
      if l == layer {
        assert InLayer(next, l, experts) == Members(fresh_);
        CoverCard(fresh_, Members(fresh_));
      } else {
        forall k | k in Members(fresh_)
          ensures !(l * experts <= k < l * experts + experts)
        {
          OtherLayer(k, layer, l, experts);
        }
        forall k | k in InLayer(pins, l, experts)
          ensures k !in InLayer(pins, layer, experts)
        {
          OtherLayer(k, l, layer, experts);
        }
        assert InLayer(next, l, experts) == InLayer(pins, l, experts);
      }
    }
  }

  function Offsets(pins: set<int>, base: nat, n: nat): (r: set<int>)
    ensures forall e :: e in r <==> 0 <= e < n && base + e in pins
  {
    if n == 0 then {}
    else if base + n - 1 in pins then Offsets(pins, base, n - 1) + {n - 1}
    else Offsets(pins, base, n - 1)
  }

  function Span(pins: set<int>, base: nat, n: nat): (r: set<int>)
    ensures forall k :: k in r <==> base <= k < base + n && k in pins
  {
    if n == 0 then {}
    else if base + n - 1 in pins then Span(pins, base, n - 1) + {base + n - 1}
    else Span(pins, base, n - 1)
  }

  lemma {:induction false} OffsetsCard(pins: set<int>, base: nat, n: nat)
    ensures |Offsets(pins, base, n)| == |Span(pins, base, n)|
  {
    if n > 0 {
      OffsetsCard(pins, base, n - 1);
    }
  }

  lemma PinnedCard(pins: set<int>, s: Store, layer: nat)
    requires WithinBudget(pins, s.nLayers, s.nExperts) && layer < s.nLayers
    ensures |PinnedExperts(pins, s, layer)| <= PIN_COUNT
  {
    var n := s.nExperts;
    OffsetsCard(pins, layer * n, n);
    assert PinnedExperts(pins, s, layer) == Offsets(pins, layer * n, n);
    assert InLayer(pins, layer, n) == Span(pins, layer * n, n);
  }

  /** A layer within the budget has at most two old pins, so hysteresis keeps exactly those still routed. */
  lemma BudgetRetains(pins: set<int>, s: Store, layer: nat, ids: seq<int>, weights: Vec)
    requires WithinBudget(pins, s.nLayers, s.nExperts) && layer < s.nLayers && Distinct(ids)
    ensures Members(Retained(ids, weights, PinnedExperts(pins, s, layer))) ==
      PinnedExperts(pins, s, layer) * Members(ids)
  {
    hide WithinBudget, PinnedExperts, Retained, Distinct;
    PinnedCard(pins, s, layer);
    RetainedExactly(ids, weights, PinnedExperts(pins, s, layer));
  }

  // ---------------------------------------------------------------- one pinned decode step

  /** The routed ids are distinct experts of the layer with records that fit. */
  predicate Routable(s: Store, slotBytes: nat, layer: nat, ids: seq<int>) {
    1 <= layer < s.nLayers && 0 < |ids| <= s.nExperts && Distinct(ids) &&
    forall i | 0 <= i < |ids| :: KeyFor(s, layer, ids[i]) >= 0 && Fetchable(s, slotBytes, KeyFor(s, layer, ids[i])) >= 0
  }

  lemma RoutableKeys(s: Store, slotBytes: nat, layer: nat, ids: seq<int>)
    requires Routable(s, slotBytes, layer, ids)
    ensures forall k | k in KeysFor(s, layer, ids) :: k >= 0 && Fetchable(s, slotBytes, k) >= 0
    ensures |ValidKeys(KeysFor(s, layer, ids))| <= |ids|
  {
    CoverCard(KeysFor(s, layer, ids), ValidKeys(KeysFor(s, layer, ids)));
  }

  /** The reservation phase of a pinned batch serves every route and loses no pinned resident. */
  lemma PlanServes(st: Store, slotBytes: nat, n: nat, pins: set<int>, keys: seq<int>, order: seq<int>)
    requires WithinBudget(pins, st.nLayers, st.nExperts) && st.nLayers >= 1
    requires |ValidKeys(keys)| + (st.nLayers - 1) * PIN_COUNT <= n && Distinct(order) && |order| <= n
    requires forall k | k in keys :: k >= 0 && Fetchable(st, slotBytes, k) >= 0
    ensures var p := Reserving(st, slotBytes, n, pins + ValidKeys(keys), keys, Plan(order, []));
            (forall k | k in keys :: k in p.order || k in p.taken) &&
            (forall k | k in pins && k in order :: k in p.order) &&
            Distinct(p.taken)
  {
    hide Reserving, Fetchable;
    var keep, start := pins + ValidKeys(keys), Plan(order, []);
    BudgetTotal(pins, st.nLayers, st.nExperts);
    assert |keep| <= |pins| + |ValidKeys(keys)| by {
      assert keep == pins + (ValidKeys(keys) - pins);
      assert ValidKeys(keys) == (ValidKeys(keys) - pins) + (ValidKeys(keys) * pins);
    }
    ReservingKeeps(st, slotBytes, n, keep, keys, start);
    ReservingServes(st, slotBytes, n, keep, keys, start);
  }

  /** When every read succeeded, all reserved keys were published. */
  lemma AllLoaded(loaded: seq<int>, taken: seq<int>)
    requires Distinct(loaded) && Distinct(taken) && |loaded| == |taken| && forall k | k in loaded :: k in taken
    ensures forall k | k in taken :: k in loaded
  {
    var all := Members(taken);
    forall k | k in loaded
      ensures k in all
    {
      assert k in taken;
    }
    CoverCard(taken, all);
    DistinctCard(loaded, all);
  }

  lemma {:induction false} ReverseDistinct(s: seq<int>)
    requires Distinct(Reverse(s))
    ensures Distinct(s)
    decreases |s|
  {
    if |s| > 0 {
      var init, last := s[..|s| - 1], s[|s| - 1];
      assert s == init + [last];
      var r := Reverse(init);
      assert Reverse(s) == [last] + r;
      HeadAway(last, r);
      ReverseDistinct(init);
      ReverseMembers(init);
    }
  }

  lemma HeadAway(last: int, r: seq<int>)
    ensures Distinct([last] + r) ==> Distinct(r) && last !in r
  {
    var all := [last] + r;
    if Distinct(all) {
      forall i | 0 <= i < |r|
        ensures r[i] != last
      {
        assert all[i + 1] == r[i] && all[0] == last;
      }
      forall i, j | 0 <= i < j < |r|
        ensures r[i] != r[j]
      {
        assert all[i + 1] == r[i] && all[j + 1] == r[j];
      }
    }
  }

  lemma LoadedDistinct(loaded: seq<int>, rest: seq<int>)
    requires Distinct(Reverse(loaded) + rest)
    ensures Distinct(loaded)
  {
    var r := Reverse(loaded);
    assert forall i | 0 <= i < |r| :: r[i] == (r + rest)[i];
    ReverseDistinct(loaded);
  }

  ghost predicate AllResident(order: seq<int>, keys: seq<int>) { forall i | 0 <= i < |keys| :: keys[i] in order }

  /** Every key of the batch has a record that fits. */
  predicate Usable(st: Store, slotBytes: nat, keys: seq<int>) {
    forall i | 0 <= i < |keys| :: keys[i] >= 0 && Fetchable(st, slotBytes, keys[i]) >= 0
  }

  /** While the pins leave a slot, a miss finds a victim. */
  lemma RoomForOne(order: seq<int>, n: int, pins: set<int>)
    requires Distinct(order) && |pins| < n
    ensures Kept(order, n, pins).Some?
  {
    if |order| >= n && LastFree(order, pins).None? {
      forall k | k in order
        ensures k in pins
      {
      }
      DistinctCard(order, pins);
    }
  }

  /** One get of a step, and the expert it hands out. */
  method GetOne(c: Cache, layer: nat, id: int) returns (ok: bool, e: Expert)
    requires c.Valid()
    modifies c`clock, c`requests, c`hits, c`misses, c`evictions, c`readOps, c`bytesRead, c`readFailures, c`order,
             c.slotOf, c.keyOf, c.usedAt, c.recordOfSlot, c.arena
    ensures c.Valid() && c.Pins() == old(c.Pins()) && c.readFailures >= old(c.readFailures)
    ensures ok && PartsInside(c.store) ==> e == DirectExpert(c.store, c.slotBytes, KeyFor(c.store, layer, id))
    ensures ok ==> c.requests == old(c.requests) + 1
    ensures var key := KeyFor(c.store, layer, id);
            key >= 0 && Fetchable(c.store, c.slotBytes, key) >= 0 && |c.Pins()| < c.nSlots ==>
            ok || c.readFailures > old(c.readFailures)
    ensures KeyFor(c.store, layer, id) in old(c.order) ==>
      ok && c.hits == old(c.hits) + 1 && c.misses == old(c.misses) && c.evictions == old(c.evictions) &&
      c.readFailures == old(c.readFailures) && forall k :: k in c.order <==> k in old(c.order)
  {
    hide Sound, Touch, Kept, Fetchable, PartsInside, DirectExpert, KeyFor;
    ghost var key := KeyFor(c.store, layer, id);
    OrderFits(c);
    if |c.Pins()| < c.nSlots {
      RoomForOne(c.order, c.nSlots, c.Pins());
    }
    if key in c.order {
      TouchMembers(c.order, key);
    }
    var slot;
    ok, slot := c.Get(layer, id);
    e := Expert([], [], []);
    if ok {
      e := HandOut(c, slot, key);
    }
  }

  /** The gets of one step stop at the first failure.  Whatever the cache holds, each of them hands out the expert of a
      direct load; while the pins leave a slot only a failed read fails a get; and over residents all of them hit and
      nothing is evicted or read. */
  method GetEach(c: Cache, layer: nat, ids: seq<int>) returns (ok: bool, experts: seq<Expert>)
    requires c.Valid()
    modifies c`clock, c`requests, c`hits, c`misses, c`evictions, c`readOps, c`bytesRead, c`readFailures, c`order,
             c.slotOf, c.keyOf, c.usedAt, c.recordOfSlot, c.arena
    ensures c.Valid() && c.Pins() == old(c.Pins()) && c.readFailures >= old(c.readFailures)
    ensures PartsInside(c.store) ==> experts <= DirectExperts(c.store, c.slotBytes, layer, ids)
    ensures ok ==> |experts| == |ids| && c.requests == old(c.requests) + |ids|
    ensures Usable(c.store, c.slotBytes, KeysFor(c.store, layer, ids)) && |c.Pins()| < c.nSlots ==>
      ok || c.readFailures > old(c.readFailures)
    ensures AllResident(old(c.order), KeysFor(c.store, layer, ids)) ==>
      ok && c.hits == old(c.hits) + |ids| && c.misses == old(c.misses) && c.evictions == old(c.evictions) &&
      c.readFailures == old(c.readFailures) && forall k :: k in c.order <==> k in old(c.order)
  {
    hide Sound, Fetchable, PartsInside, DirectExpert, KeyFor;
    ghost var keys := KeysFor(c.store, layer, ids);
    ghost var all := AllResident(c.order, keys);
    ok, experts := true, [];
    for j := 0 to |ids|
      invariant c.Valid() && c.Pins() == old(c.Pins()) && c.readFailures >= old(c.readFailures) && ok
      invariant |experts| == j && c.requests == old(c.requests) + j
      invariant PartsInside(c.store) ==>
        forall i | 0 <= i < j :: experts[i] == DirectExpert(c.store, c.slotBytes, keys[i])
      invariant all ==> c.hits == old(c.hits) + j && c.misses == old(c.misses) && c.evictions == old(c.evictions)
      invariant all ==> c.readFailures == old(c.readFailures) && forall k :: k in c.order <==> k in old(c.order)
    {
      assert keys[j] == KeyFor(c.store, layer, ids[j]);
      var e;
      ok, e := GetOne(c, layer, ids[j]);
      if !ok {
        return;
      }
      experts := experts + [e];
    }
  }

  lemma TouchMembers(order: seq<int>, key: int)
    requires Distinct(order) && key in order
    ensures forall k :: k in Touch(order, key) <==> k in order
  {
    WithoutMembers(order, key);
  }

  /** Every key the planned batch needs is resident once its reads are in. */
  lemma BatchResident(c: Cache, keys: seq<int>, p: Plan, loaded: seq<int>, pins: set<int>, before: seq<int>)
    requires c.Valid() && c.order == Reverse(loaded) + p.order && |loaded| == |p.taken| && Distinct(p.taken)
    requires (forall k | k in loaded :: k in p.taken) && (forall k | k in keys :: k in p.order || k in p.taken)
    requires forall k | k in pins && k in before :: k in p.order
    ensures (forall k | k in keys :: k in c.order) && (forall k | k in pins && k in before :: k in c.order)
  {
    OrderFits(c);
    LoadedDistinct(loaded, p.order);
    AllLoaded(loaded, p.taken);
    ReverseMembers(loaded);
  }

  /** The batched load of a pinned step, with every read successful: all routes resident, no pinned resident lost. */
  method LoadRoutes(c: Cache, layer: nat, ids: seq<int>) returns (ghost served: bool)
    requires c.Valid() && c.pinned != null && Routable(c.store, c.slotBytes, layer, ids)
    requires WithinBudget(c.Pins(), c.store.nLayers, c.store.nExperts) && Roomy(c, |ids|)
    modifies c`clock, c`evictions, c`readOps, c`bytesRead, c`readFailures, c`prefetchBatches, c`prefetchReads, c`order,
             c.slotOf, c.keyOf, c.usedAt, c.recordOfSlot, c.arena
    ensures c.Valid() && c.Pins() == old(c.Pins()) && c.readFailures >= old(c.readFailures)
    ensures served <==> c.readFailures == old(c.readFailures)
    ensures served ==> forall k | k in KeysFor(c.store, layer, ids) :: k in c.order
    ensures served ==> forall k | k in c.Pins() && k in old(c.order) :: k in c.order
  {
    hide Sound, Reserving, Fetchable, WithinBudget, KeyFor;
    ghost var pins, keys, before := c.Pins(), KeysFor(c.store, layer, ids), c.order;
    ghost var p := c.Planned(layer, ids);
    OrderFits(c);
    RoutableKeys(c.store, c.slotBytes, layer, ids);
    PlanServes(c.store, c.slotBytes, c.nSlots, pins, keys, before);
    ghost var failures := c.readFailures;
    var _, loaded, _ := c.GetMany(layer, ids);
    served := c.readFailures == failures;
    if served {
      BatchResident(c, keys, p, loaded, pins, before);
    }
  }

  lemma ChosenKeys(s: Store, slotBytes: nat, layer: nat, ids: seq<int>, pins: seq<int>)
    requires Routable(s, slotBytes, layer, ids) && |pins| == NPin(|ids|) && forall e | e in pins :: e in ids
    ensures |pins| <= s.nExperts && forall i | 0 <= i < |pins| :: KeyFor(s, layer, pins[i]) >= 0
    ensures layer * s.nExperts + s.nExperts <= s.Keys()
    ensures forall k | k in KeysFor(s, layer, pins) :: layer * s.nExperts <= k < layer * s.nExperts + s.nExperts
  {
    LayerInRange(s, layer);
    forall i | 0 <= i < |pins|
      ensures KeyFor(s, layer, pins[i]) >= 0 &&
        layer * s.nExperts <= KeyFor(s, layer, pins[i]) < layer * s.nExperts + s.nExperts
    {
      assert pins[i] in pins;
      var j :| 0 <= j < |ids| && ids[j] == pins[i];
    }
  }

  lemma BudgetKept(s: Store, slotBytes: nat, layer: nat, ids: seq<int>, pins: seq<int>, before: set<int>)
    requires Routable(s, slotBytes, layer, ids) && |pins| == NPin(|ids|) && forall e | e in pins :: e in ids
    requires WithinBudget(before, s.nLayers, s.nExperts)
    ensures WithinBudget((before - LayerKeys(s, layer)) + Members(KeysFor(s, layer, pins)), s.nLayers, s.nExperts)
  {
    ChosenKeys(s, slotBytes, layer, ids, pins);
    assert before - LayerKeys(s, layer) == before - InLayer(before, layer, s.nExperts);
    hide WithinBudget, InLayer, LayerKeys;
    ReplaceWithin(before, KeysFor(s, layer, pins), s.nLayers, s.nExperts, layer);
  }

  /** How the pins of one routed layer may change. */
  ghost predicate Repinned(s: Store, layer: nat, ids: seq<int>, before: set<int>, after: set<int>, hysteresis: bool) {
    WithinBudget(after, s.nLayers, s.nExperts) &&
    (forall k | k in after && k in LayerKeys(s, layer) :: k in KeysFor(s, layer, ids)) &&
    (forall k | k !in LayerKeys(s, layer) :: k in after <==> k in before) &&
    (hysteresis ==> forall e | e in ids && e in PinnedExperts(before, s, layer) :: KeyFor(s, layer, e) in after)
  }

  function After(s: Store, layer: nat, before: set<int>, pins: seq<int>): set<int> {
    (before - LayerKeys(s, layer)) + Members(KeysFor(s, layer, pins))
  }

  lemma RepinFacts(s: Store, slotBytes: nat, layer: nat, ids: seq<int>, weights: Vec, before: set<int>,
                   hysteresis: bool)
    requires Routable(s, slotBytes, layer, ids) && WithinBudget(before, s.nLayers, s.nExperts)
    ensures var chosen := PinsFor(ids, weights, PinnedExperts(before, s, layer), hysteresis);
            chosen.Some? && |chosen.value| <= s.nExperts &&
            (forall i | 0 <= i < |chosen.value| :: KeyFor(s, layer, chosen.value[i]) >= 0) &&
            Repinned(s, layer, ids, before, After(s, layer, before, chosen.value), hysteresis)
    ensures var pinned := PinnedExperts(before, s, layer); |Retained(ids, weights, pinned)| == |pinned * Members(ids)|
  {
    hide WithinBudget, PinsFor, Fetchable, KeyFor, Retained, KeysFor, LayerKeys, PinnedExperts;
    var pinned := PinnedExperts(before, s, layer);
    PinsForFacts(ids, weights, pinned, hysteresis);
    var pins := PinsFor(ids, weights, pinned, hysteresis).value;
    ChosenKeys(s, slotBytes, layer, ids, pins);
    BudgetKept(s, slotBytes, layer, ids, pins, before);
    BudgetRetains(before, s, layer, ids, weights);
    RetainedFacts(ids, weights, pinned);
    MembersCard(Retained(ids, weights, pinned));
    ChosenInBatch(s, layer, ids, pins);
    ChosenInLayer(s, slotBytes, layer, ids, pins);
    var after := After(s, layer, before, pins);
    forall k | k in after && k in LayerKeys(s, layer)
      ensures k in KeysFor(s, layer, ids)
    {
      assert k in KeysFor(s, layer, pins);
    }
    if hysteresis {
      forall e | e in ids && e in pinned
        ensures KeyFor(s, layer, e) in after
      {
        assert e in Members(Retained(ids, weights, pinned));
        assert e in pins;
        assert KeyFor(s, layer, e) in KeysFor(s, layer, pins);
      }
    }
  }

  lemma ChosenInLayer(s: Store, slotBytes: nat, layer: nat, ids: seq<int>, pins: seq<int>)
    requires Routable(s, slotBytes, layer, ids) && |pins| == NPin(|ids|) && forall e | e in pins :: e in ids
    ensures forall k | k in KeysFor(s, layer, pins) :: k in LayerKeys(s, layer)
  {
    ChosenKeys(s, slotBytes, layer, ids, pins);
  }

  /** The pins of one routed layer replaced: with distinct routes and enough slots this always succeeds, keeps the
      budget, and with hysteresis keeps every old pin that is routed again. */
  method Repin(c: Cache, layer: nat, ids: seq<int>, weights: Vec, hysteresis: bool) returns (ok: bool, retained: nat)
    requires c.Valid() && c.pinned != null && Routable(c.store, c.slotBytes, layer, ids)
    requires WithinBudget(c.Pins(), c.store.nLayers, c.store.nExperts)
    modifies c`pinned, c.pinned
    ensures c.Valid() && c.View() == old(c.View()) && c.pinned != null && (c.pinned == old(c.pinned) || fresh(c.pinned))
    ensures (ok <==> Roomy(c, |ids|)) && (!ok ==> c.Pins() == old(c.Pins()))
    ensures ok ==> Repinned(c.store, layer, ids, old(c.Pins()), c.Pins(), hysteresis)
    ensures ok ==> retained == if hysteresis then |old(PinnedExperts(c.Pins(), c.store, layer)) * Members(ids)| else 0
  {
    hide Sound, WithinBudget, PinsFor, Fetchable, KeyFor, Repinned, KeysFor, LayerKeys, PinnedExperts, Retained;
    RepinFacts(c.store, c.slotBytes, layer, ids, weights, c.Pins(), hysteresis);
    ok, retained := PinRoutes(c, layer, ids, weights, hysteresis);
  }

  lemma ChosenInBatch(s: Store, layer: nat, ids: seq<int>, pins: seq<int>)
    requires forall e | e in pins :: e in ids
    ensures forall k | k in KeysFor(s, layer, pins) :: k in KeysFor(s, layer, ids)
    ensures forall e | e in pins :: KeyFor(s, layer, e) in KeysFor(s, layer, pins)
  {
    forall i | 0 <= i < |pins|
      ensures KeyFor(s, layer, pins[i]) in KeysFor(s, layer, ids)
    {
      assert pins[i] in pins;
      var j :| 0 <= j < |ids| && ids[j] == pins[i];
      assert KeysFor(s, layer, ids)[j] == KeyFor(s, layer, pins[i]);
    }
    forall e | e in pins
      ensures KeyFor(s, layer, e) in KeysFor(s, layer, pins)
    {
      var i :| 0 <= i < |pins| && pins[i] == e;
      assert KeysFor(s, layer, pins)[i] == KeyFor(s, layer, e);
    }
  }

  lemma RepinnedBudget(s: Store, layer: nat, ids: seq<int>, before: set<int>, after: set<int>, hysteresis: bool)
    requires Repinned(s, layer, ids, before, after, hysteresis)
    ensures WithinBudget(after, s.nLayers, s.nExperts)
  {
  }

  lemma InOrder(order: seq<int>, keys: seq<int>)
    requires forall k | k in keys :: k in order
    ensures AllResident(order, keys)
  {
    forall i | 0 <= i < |keys|
      ensures keys[i] in order
    {
      var k := keys[i];
      assert k in keys;
    }
  }

  /** The cache calls of one pinned MoE call.  With enough slots and no failed read in the batch, every route is
      resident before the gets, all of them hit, and no pinned resident is lost; and whatever happened, every expert
      handed out is that of a direct load. */
  method DecodeStep(c: Cache, layer: nat, ids: seq<int>, weights: Vec, hysteresis: bool)
      returns (ok: bool, retained: nat, experts: seq<Expert>)
    requires c.Valid() && c.pinned != null && Routable(c.store, c.slotBytes, layer, ids)
    requires WithinBudget(c.Pins(), c.store.nLayers, c.store.nExperts)
    modifies c, c.slotOf, c.keyOf, c.usedAt, c.recordOfSlot, c.arena, c.pinned
    ensures c.Valid() && c.pinned != null && (c.pinned == old(c.pinned) || fresh(c.pinned))
    ensures WithinBudget(c.Pins(), c.store.nLayers, c.store.nExperts)
    ensures !Roomy(c, |ids|) ==> !ok && c.View() == old(c.View()) && c.Pins() == old(c.Pins())
    ensures Roomy(c, |ids|) ==> Repinned(c.store, layer, ids, old(c.Pins()), c.Pins(), hysteresis)
    ensures c.readFailures >= old(c.readFailures)
    ensures PartsInside(c.store) ==> experts <= DirectExperts(c.store, c.slotBytes, layer, ids)
    ensures ok ==> |experts| == |ids| && c.requests == old(c.requests) + |ids|
    ensures Roomy(c, |ids|) && c.readFailures == old(c.readFailures) ==>
      ok && c.hits == old(c.hits) + |ids| && c.misses == old(c.misses) &&
      AllResident(c.order, KeysFor(c.store, layer, ids))
    ensures Roomy(c, |ids|) && c.readFailures == old(c.readFailures) ==>
      forall k | k in c.Pins() && k in old(c.order) :: k in c.order
  {
    hide Sound, WithinBudget, Repinned, Fetchable, KeyFor, PinnedExperts, PartsInside, DirectExperts;
    experts := [];
    ok, retained := Repin(c, layer, ids, weights, hysteresis);
    if !ok {
      return;
    }
    RepinnedBudget(c.store, layer, ids, old(c.Pins()), c.Pins(), hysteresis);
    ghost var served := LoadRoutes(c, layer, ids);
    if served {
      InOrder(c.order, KeysFor(c.store, layer, ids));
    }
    ok, experts := GetEach(c, layer, ids);
  }
}
