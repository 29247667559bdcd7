/** Whole runs of the expert cache: any sequence of calls keeps it coherent, and a run of single gets without pins
    follows the stack of recently requested keys. */
module CacheRuns {
  import opened CacheModel
  import opened Lists
  import opened BatchPlan
  import opened ExpertCache
  import opened LruStack

  datatype Call = CallGet(layer: int, expert: int) | CallMany(layer: int, experts: seq<int>)
    | CallPin(layer: int, experts: seq<int>)

  /** Any calls, with any ids and any failed reads: the cache stays coherent, and only gets are counted as requests. */
  method Run(c: Cache, calls: seq<Call>)
    requires c.Valid()
    modifies c, c.slotOf, c.keyOf, c.usedAt, c.recordOfSlot, c.arena, c.pinned
    ensures c.Valid() && c.requests == c.hits + c.misses && c.requests <= old(c.requests) + |calls|
    ensures forall key | key in c.order :: 0 <= key < c.slotOf.Length && c.Holds(c.slotOf[key], key)
    ensures forall slot | 0 <= slot < c.keyOf.Length :: c.keyOf[slot] != INFLIGHT
  {
    hide Sound, Loaded;
    for i := 0 to |calls|
      invariant c.Valid() && (c.pinned == old(c.pinned) || fresh(c.pinned)) && c.requests <= old(c.requests) + i
    {
      Do(c, calls[i]);
    }
    forall key | key in c.order
      ensures 0 <= key < c.slotOf.Length && c.Holds(c.slotOf[key], key)
    {
      c.ResidentHolds(key);
    }
    NothingInFlight(c);
  }

  method Do(c: Cache, call: Call)
    requires c.Valid()
    modifies c, c.slotOf, c.keyOf, c.usedAt, c.recordOfSlot, c.arena, c.pinned
    ensures c.Valid() && (c.pinned == old(c.pinned) || fresh(c.pinned)) && c.requests <= old(c.requests) + 1
  {
    hide Sound, Loaded, Reserving, Kept, Touch, Fetchable;
    match call
    case CallGet(layer, expert) =>
      var _, _ := c.Get(layer, expert);
    case CallMany(layer, experts) =>
      var _, _, _ := c.GetMany(layer, experts);
    case CallPin(layer, experts) =>
      var _ := c.PinLayer(layer, experts);
  }

  lemma NothingInFlight(c: Cache)
    requires c.Valid()
    ensures forall slot | 0 <= slot < c.keyOf.Length :: c.keyOf[slot] != INFLIGHT
    ensures c.requests == c.hits + c.misses
  {
    forall slot | 0 <= slot < c.keyOf.Length
      ensures c.keyOf[slot] != INFLIGHT
    {
      assert !Reserved([], slot);
    }
  }

  lemma OrderFits(c: Cache)
    requires c.Valid()
    ensures Distinct(c.order) && |c.order| <= c.nSlots
  {
    Occupancy(c.View(), []);
  }

  predicate Servable(c: Cache, requests: seq<(int, int)>) {
    forall i | 0 <= i < |requests| ::
      Fetchable(c.store, c.slotBytes, KeyFor(c.store, requests[i].0, requests[i].1)) >= 0
  }

  function Keys(c: Cache, requests: seq<(int, int)>): (keys: seq<int>)
    ensures |keys| == |requests|
  {
    seq(|requests|, i requires 0 <= i < |requests| => KeyFor(c.store, requests[i].0, requests[i].1))
  }

  /** A run of single gets from a new cache, all of them served: residents and hits are those of the stack. */
  method RunGets(c: Cache, requests: seq<(int, int)>) returns (served: bool)
    requires c.Valid() && c.pinned == null && c.order == [] && c.nSlots >= 1 && Servable(c, requests)
    modifies c, c.slotOf, c.keyOf, c.usedAt, c.recordOfSlot, c.arena
    ensures c.Valid() && (served <==> c.readFailures == old(c.readFailures))
    ensures served ==> c.order == Residents(Keys(c, requests), c.nSlots)
    ensures served ==>
      c.hits == old(c.hits) + Hits(Keys(c, requests), c.nSlots) && c.requests == old(c.requests) + |requests|
  {
    hide Sound, Fetchable, Touch, Kept, Distinct;
    ghost var keys, n := Keys(c, requests), c.nSlots;
    served := true;
    for i := 0 to |requests|
      invariant c.Valid() && c.pinned == null && (served <==> c.readFailures == old(c.readFailures)) &&
        c.readFailures >= old(c.readFailures)
      invariant served ==> c.order == Residents(keys[..i], n)
      invariant served ==> c.hits == old(c.hits) + Hits(keys[..i], n) && c.requests == old(c.requests) + i
    {
      hide Residents, Hits;
      OrderFits(c);
      KeptIsCap(c.order, n);
      ghost var before := c.order;
      var ok, _ := c.Get(requests[i].0, requests[i].1);
      assert keys[i] == KeyFor(c.store, requests[i].0, requests[i].1);
      NextGet(keys, i, n);
      served := served && ok;
    }
    assert keys[..|requests|] == keys;
  }

  lemma NextGet(keys: seq<int>, i: nat, n: nat)
    requires i < |keys| && n >= 1
    ensures Residents(keys[..i + 1], n) == GetOrder(Residents(keys[..i], n), n, keys[i])
    ensures Hits(keys[..i + 1], n) == Hits(keys[..i], n) + if keys[i] in Residents(keys[..i], n) then 1 else 0
  {
    assert keys[..i + 1][..i] == keys[..i];
  }
}
