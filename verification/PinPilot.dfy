/** The pin pilot over a whole generation: off during prefill, on from the first decode call, and then every step of a
    run is served from the cache after its one batched load. */
module PinPilot {
  import opened Vectors
  import opened ExpertStore
  import opened CacheModel
  import opened ExpertCache
  import opened LayerPins
  import opened PinBudget
  import opened Transparency

  /** One call of the MoE layer: the routes the router chose. */
  datatype Step = Step(layer: nat, ids: seq<int>, weights: Vec)

  class Pilot {
    var cache: Cache?
    var lastLayer: int

    constructor ()
      ensures cache == null && lastLayer == -1
    {
      cache, lastLayer := null, -1;
    }

    /** `layerpin_phase_update`. */
    method PhaseUpdate(c: Cache, layer: int) returns (ok: bool)
      requires c.Valid()
      modifies this, c`pinned, c.pinned
      ensures c.Valid() && c.View() == old(c.View()) && c.Pins() == old(c.Pins()) &&
        (c.pinned == old(c.pinned) || fresh(c.pinned))
      ensures cache == c && (ok ==> lastLayer == layer)
      ensures old(c.pinned) == null && old(cache) == c && old(lastLayer) == LAST_LAYER && layer == 1 ==>
        (ok <==> c.store.nLayers > 0) && (ok ==> c.pinned != null)
      ensures !(old(c.pinned) == null && old(cache) == c && old(lastLayer) == LAST_LAYER && layer == 1) ==>
        ok && c.pinned == old(c.pinned)
    {
      hide Sound;
      if cache != c {
        cache := c;
        lastLayer := -1;
      }
      if c.pinned == null && lastLayer == LAST_LAYER && layer == 1 {
        ok := c.PinLayer(0, []);
        if !ok {
          return;
        }
      }
      lastLayer := layer;
      ok := true;
    }

    /** The pilot has just seen this cache through its last routed layer. */
    ghost predicate AtEnd(c: Cache)
      reads this
    {
      cache == c && lastLayer == LAST_LAYER
    }

    /** The layer-major prefill calls every routed layer once per prompt token, layer after layer.  The next call of
        layer 1 is the transition; pins appear during the prefill itself exactly when the same cache had already been
        through a prefill without a decode after it. */
    method PrefillPhase(c: Cache, tokens: nat) returns (ok: bool)
      requires c.Valid() && c.pinned == null
      modifies this, c`pinned
      ensures c.Valid() && c.View() == old(c.View()) && c.Pins() == {} && (c.pinned == null || fresh(c.pinned))
      ensures ok <==> !old(AtEnd(c)) || tokens == 0 || c.store.nLayers > 0
      ensures ok ==> (c.pinned != null <==> old(AtEnd(c)) && tokens > 0)
      ensures ok && tokens > 0 ==> AtEnd(c)
    {
      hide Sound;
      ghost var again := AtEnd(c);
      ok := true;
      for layer := 1 to LAST_LAYER + 1
        invariant c.Valid() && c.View() == old(c.View()) && c.Pins() == {} && (c.pinned == null || fresh(c.pinned))
        invariant ok && (c.pinned != null <==> again && tokens > 0 && layer > 1) &&
          (c.pinned != null ==> c.store.nLayers > 0)
        invariant if layer > 1 && tokens > 0 then cache == c && lastLayer == layer - 1 else again == AtEnd(c)
      {
        for t := 0 to tokens
          invariant c.Valid() && c.View() == old(c.View()) && c.Pins() == {} && (c.pinned == null || fresh(c.pinned))
          invariant ok && (c.pinned != null <==> again && tokens > 0 && (layer > 1 || t > 0)) &&
            (c.pinned != null ==> c.store.nLayers > 0)
          invariant if tokens > 0 && (layer > 1 || t > 0) then cache == c &&
            lastLayer == (if t > 0 then layer else layer - 1)
                    else again == AtEnd(c)
        {
          ok := PhaseUpdate(c, layer);
          if !ok {
            return;
          }
        }
      }
    }
  }

  /** The cache calls of `moe_token_gguf_q8_impl` with layer pins.  Whatever the cache holds, pinned or not, the experts
      handed out are those of direct loads, and only a failed read can fail the call once the slots suffice. */
  method MoeCall(p: Pilot, c: Cache, step: Step, hysteresis: bool) returns (ok: bool, experts: seq<Expert>)
    requires c.Valid() && Routable(c.store, c.slotBytes, step.layer, step.ids)
    requires WithinBudget(c.Pins(), c.store.nLayers, c.store.nExperts)
    modifies p, c, c.slotOf, c.keyOf, c.usedAt, c.recordOfSlot, c.arena, c.pinned
    ensures c.Valid() && (c.pinned == old(c.pinned) || fresh(c.pinned))
    ensures WithinBudget(c.Pins(), c.store.nLayers, c.store.nExperts)
    ensures p.cache == c && p.lastLayer == step.layer
    ensures (c.pinned != null <==>
      old(c.pinned) != null || (old(p.cache) == c && old(p.lastLayer) == LAST_LAYER && step.layer == 1))
    ensures c.readFailures >= old(c.readFailures)
    ensures PartsInside(c.store) ==> experts <= StepExperts(c.store, c.slotBytes, step)
    ensures ok ==> |experts| == |step.ids| && c.requests == old(c.requests) + |step.ids|
    ensures c.pinned == null && c.nSlots >= 1 && c.readFailures == old(c.readFailures) ==> ok
    ensures c.pinned != null && Roomy(c, |step.ids|) ==>
      Repinned(c.store, step.layer, step.ids, old(c.Pins()), c.Pins(), hysteresis)
    ensures c.pinned != null && Roomy(c, |step.ids|) && c.readFailures == old(c.readFailures) ==>
      ok && c.hits == old(c.hits) + |step.ids| && c.misses == old(c.misses) &&
      AllResident(c.order, KeysFor(c.store, step.layer, step.ids)) &&
      forall k | k in c.Pins() && k in old(c.order) :: k in c.order
  {
    hide Sound, WithinBudget, Repinned, Fetchable, KeyFor, PartsInside, DirectExperts;
    ok := p.PhaseUpdate(c, step.layer);
    if c.pinned != null {
      var served, _, handed := DecodeStep(c, step.layer, step.ids, step.weights, hysteresis);
      ok, experts := served, handed;
    } else {
      RoutableUsable(c.store, c.slotBytes, step.layer, step.ids);
      var _, _, _ := c.GetMany(step.layer, step.ids);
      ok, experts := GetEach(c, step.layer, step.ids);
    }
  }

  /** The experts of one call, by direct loads. */
  function StepExperts(st: Store, size: nat, step: Step): (es: seq<Expert>)
    ensures |es| == |step.ids|
  {
    DirectExperts(st, size, step.layer, step.ids)
  }

  lemma RoutableUsable(st: Store, slotBytes: nat, layer: nat, ids: seq<int>)
    requires Routable(st, slotBytes, layer, ids)
    ensures Usable(st, slotBytes, KeysFor(st, layer, ids))
  {
    hide Fetchable, KeyFor;
  }

  function Routes(steps: seq<Step>): nat {
    if |steps| == 0 then 0 else Routes(steps[..|steps| - 1]) + |steps[|steps| - 1].ids|
  }

  predicate AllRoutable(c: Cache, steps: seq<Step>) {
    forall i | 0 <= i < |steps| ::
      Routable(c.store, c.slotBytes, steps[i].layer, steps[i].ids) && Roomy(c, |steps[i].ids|)
  }

  /** The pins and the residents between two calls. */
  datatype Moment = Moment(pins: set<int>, order: seq<int>)

  ghost predicate PinsResident(m: Moment) { forall k | k in m.pins :: k in m.order }

  /** One call replaces only the pins of its own layer, and afterwards all pins are resident. */
  ghost predicate Follows(s: Store, step: Step, before: Moment, after: Moment, hysteresis: bool) {
    Repinned(s, step.layer, step.ids, before.pins, after.pins, hysteresis) && PinsResident(after)
  }

  ghost predicate Followed(s: Store, steps: seq<Step>, trace: seq<Moment>, hysteresis: bool) {
    |trace| == |steps| + 1 && PinsResident(trace[0]) &&
    forall i, j | 0 <= i < j == i + 1 <= |steps| :: Follows(s, steps[i], trace[i], trace[j], hysteresis)
  }

  /** Pins over a run: what a layer has pinned stays pinned and resident until that layer is called again. */
  lemma {:induction false} PinsStay(s: Store, steps: seq<Step>, trace: seq<Moment>, hysteresis: bool, layer: nat,
                                    from: nat, to: nat, key: int)
    requires Followed(s, steps, trace, hysteresis) && from <= to <= |steps| && layer < s.nLayers
    requires forall i | from <= i < to :: steps[i].layer != layer
    requires key in trace[from].pins && key in LayerKeys(s, layer)
    ensures key in trace[to].pins && key in trace[to].order
  {
    if from < to {
      PinsStay(s, steps, trace, hysteresis, layer, from, to - 1, key);
      StaysPinned(s, steps[to - 1], trace[to - 1], trace[to], hysteresis, layer, key);
    }
    hide Follows, LayerKeys;
    LastResident(s, steps, trace, hysteresis, to);
  }

  lemma StaysPinned(s: Store, step: Step, before: Moment, after: Moment, hysteresis: bool, layer: nat, key: int)
    requires Follows(s, step, before, after, hysteresis) && step.layer != layer && key in before.pins &&
      key in LayerKeys(s, layer)
    ensures key in after.pins
  {
    hide WithinBudget;
    OtherLayer(key, layer, step.layer, s.nExperts);
  }

  lemma NoPins(layers: nat, experts: nat)
    ensures WithinBudget({}, layers, experts)
  {
    forall l: nat | l < layers
      ensures InLayer({}, l, experts) == {}
    {
    }
  }

  /** After one call without a failed read all pins are resident. */
  lemma StillResident(s: Store, step: Step, before: Moment, after: Moment, hysteresis: bool)
    requires PinsResident(before) && Repinned(s, step.layer, step.ids, before.pins, after.pins, hysteresis)
    requires AllResident(after.order, KeysFor(s, step.layer, step.ids))
    requires forall k | k in after.pins && k in before.order :: k in after.order
    ensures PinsResident(after)
  {
    hide WithinBudget, LayerKeys, KeysFor;
    var keys := KeysFor(s, step.layer, step.ids);
    forall k | k in after.pins
      ensures k in after.order
    {
      if k in LayerKeys(s, step.layer) {
        var i :| 0 <= i < |keys| && keys[i] == k;
      }
    }
  }

  lemma FollowedSnoc(s: Store, steps: seq<Step>, trace: seq<Moment>, hysteresis: bool, step: Step, after: Moment)
    requires Followed(s, steps, trace, hysteresis) && PinsResident(after)
    requires Repinned(s, step.layer, step.ids, trace[|steps|].pins, after.pins, hysteresis)
    ensures Followed(s, steps + [step], trace + [after], hysteresis)
  {
    assert Follows(s, step, trace[|steps|], after, hysteresis);
    hide Follows, PinsResident;
  }

  /** What every call of a run hands out, as far as it got. */
  ghost predicate Delivered(st: Store, size: nat, steps: seq<Step>, outs: seq<seq<Expert>>) {
    |outs| == |steps| && forall i | 0 <= i < |outs| :: outs[i] <= StepExperts(st, size, steps[i])
  }

  ghost predicate Complete(steps: seq<Step>, outs: seq<seq<Expert>>) {
    |outs| == |steps| && forall i | 0 <= i < |outs| :: |outs[i]| == |steps[i].ids|
  }

  /** A whole decode, from the first call after the prefill on or from any later one.  The experts handed out are those
      of direct loads.  As long as no read fails, every get of every step hits; `trace` records the pins and residents
      between the calls. */
  method DecodeRun(p: Pilot, c: Cache, steps: seq<Step>, hysteresis: bool)
      returns (ok: bool, outs: seq<seq<Expert>>, ghost trace: seq<Moment>)
    requires c.Valid() && AllRoutable(c, steps)
    requires c.pinned != null || (p.AtEnd(c) && |steps| > 0 && steps[0].layer == 1)
    requires WithinBudget(c.Pins(), c.store.nLayers, c.store.nExperts)
    modifies p, c, c.slotOf, c.keyOf, c.usedAt, c.recordOfSlot, c.arena, c.pinned
    ensures c.Valid() && c.pinned != null && WithinBudget(c.Pins(), c.store.nLayers, c.store.nExperts)
    ensures c.readFailures >= old(c.readFailures)
    ensures PartsInside(c.store) ==> Delivered(c.store, c.slotBytes, steps, outs)
    ensures ok ==> Complete(steps, outs)
    ensures c.readFailures == old(c.readFailures) ==>
      ok && c.hits == old(c.hits) + Routes(steps) && c.misses == old(c.misses)
    ensures c.readFailures == old(c.readFailures) && old(forall k | k in c.Pins() :: k in c.order) ==>
      Followed(c.store, steps, trace, hysteresis) &&
      trace[0] == old(Moment(c.Pins(), c.order)) && trace[|steps|] == Moment(c.Pins(), c.order)
  {
    hide Sound, WithinBudget, Routable, Roomy, AllResident, Repinned, Followed, Routes, PartsInside, StepExperts;
    ok, outs, trace := true, [], [Moment(c.Pins(), c.order)];
    StartFollowed(c.store, trace[0], hysteresis);
    NoRoutes();
    for i := 0 to |steps|
      invariant c.Valid() && WithinBudget(c.Pins(), c.store.nLayers, c.store.nExperts)
      invariant c.pinned != null || (i == 0 && p.AtEnd(c))
      invariant c.pinned == old(c.pinned) || fresh(c.pinned)
      invariant c.readFailures >= old(c.readFailures) && |trace| == i + 1
      invariant PartsInside(c.store) ==> Delivered(c.store, c.slotBytes, steps[..i], outs)
      invariant ok ==> Complete(steps[..i], outs)
      invariant trace[i] == Moment(c.Pins(), c.order) && trace[0] == old(Moment(c.Pins(), c.order))
      invariant c.readFailures == old(c.readFailures) ==>
        ok && c.hits == old(c.hits) + Routes(steps[..i]) && c.misses == old(c.misses)
      invariant c.readFailures == old(c.readFailures) && PinsResident(trace[0]) ==>
        Followed(c.store, steps[..i], trace, hysteresis)
    {
      NextRoutes(steps, i);
      var served, experts := MoeCall(p, c, steps[i], hysteresis);
      ok, outs := ok && served, outs + [experts];
      ghost var after := Moment(c.Pins(), c.order);
      if c.readFailures == old(c.readFailures) && PinsResident(trace[0]) {
        LastResident(c.store, steps[..i], trace, hysteresis, i);
        StillResident(c.store, steps[i], trace[i], after, hysteresis);
        FollowedSnoc(c.store, steps[..i], trace, hysteresis, steps[i], after);
        assert steps[..i + 1] == steps[..i] + [steps[i]];
      }
      trace := trace + [after];
    }
    assert steps[..|steps|] == steps;
  }

  lemma StartFollowed(s: Store, start: Moment, hysteresis: bool)
    ensures PinsResident(start) ==> Followed(s, [], [start], hysteresis)
  {
  }

  lemma LastResident(s: Store, steps: seq<Step>, trace: seq<Moment>, hysteresis: bool, i: nat)
    requires Followed(s, steps, trace, hysteresis) && i <= |steps|
    ensures |trace| == |steps| + 1 && PinsResident(trace[i])
  {
    if i > 0 {
      assert Follows(s, steps[i - 1], trace[i - 1], trace[i], hysteresis);
    }
  }

  lemma NoRoutes()
    ensures Routes([]) == 0
  {
  }

  lemma NextRoutes(steps: seq<Step>, i: nat)
    requires i < |steps|
    ensures Routes(steps[..i + 1]) == Routes(steps[..i]) + |steps[i].ids|
  {
    assert steps[..i + 1][..i] == steps[..i];
  }

  // ---------------------------------------------------------------- a generation

  predicate RowRoutable(c: Cache, layer: nat, row: seq<Step>) {
    forall t | 0 <= t < |row| :: row[t].layer == layer && Routable(c.store, c.slotBytes, layer, row[t].ids)
  }

  /** The prefill calls: one row of calls per routed layer, one call per prompt token in each. */
  predicate PrefillRoutable(c: Cache, tokens: nat, rows: seq<seq<Step>>) {
    |rows| == LAST_LAYER && forall l | 0 <= l < |rows| :: |rows[l]| == tokens && RowRoutable(c, l + 1, rows[l])
  }

  function RowRoutes(rows: seq<seq<Step>>): nat {
    if |rows| == 0 then 0 else RowRoutes(rows[..|rows| - 1]) + Routes(rows[|rows| - 1])
  }

  lemma NextRow(rows: seq<seq<Step>>, l: nat)
    requires l < |rows|
    ensures RowRoutes(rows[..l + 1]) == RowRoutes(rows[..l]) + Routes(rows[l])
  {
    assert rows[..l + 1][..l] == rows[..l];
  }

  /** The calls of one layer during prefill: the cache stays without pins. */
  method PrefillRow(p: Pilot, c: Cache, layer: nat, row: seq<Step>, hysteresis: bool)
      returns (ok: bool, outs: seq<seq<Expert>>)
    requires c.Valid() && c.pinned == null && RowRoutable(c, layer, row) && (layer == 1 ==> !p.AtEnd(c))
    modifies p, c, c.slotOf, c.keyOf, c.usedAt, c.recordOfSlot, c.arena
    ensures c.Valid() && c.pinned == null && c.readFailures >= old(c.readFailures)
    ensures ok && |row| > 0 ==> p.cache == c && p.lastLayer == layer
    ensures ok && |row| == 0 ==> p.AtEnd(c) == old(p.AtEnd(c))
    ensures ok && PartsInside(c.store) ==> Delivered(c.store, c.slotBytes, row, outs)
    ensures ok ==> Complete(row, outs) && c.requests == old(c.requests) + Routes(row)
    ensures c.nSlots >= 1 && c.readFailures == old(c.readFailures) ==> ok
  {
    hide Sound, WithinBudget, Routable, Repinned, AllResident, Routes, PartsInside, StepExperts, Roomy;
    ok, outs := true, [];
    NoRoutes();
    for t := 0 to |row|
      invariant c.Valid() && c.pinned == null && c.readFailures >= old(c.readFailures) && ok
      invariant if t > 0 then p.cache == c && p.lastLayer == layer else p.AtEnd(c) == old(p.AtEnd(c))
      invariant PartsInside(c.store) ==> Delivered(c.store, c.slotBytes, row[..t], outs)
      invariant Complete(row[..t], outs) && c.requests == old(c.requests) + Routes(row[..t])
    {
      NextRoutes(row, t);
      NoPins(c.store.nLayers, c.store.nExperts);
      assert c.Pins() == {};
      var experts;
      ok, experts := MoeCall(p, c, row[t], hysteresis);
      if !ok {
        return;
      }
      outs := outs + [experts];
    }
    assert row[..|row|] == row;
  }

  /** The layer-major prefill with its cache calls: no pins, and the next call of layer 1 is the transition. */
  method Prefill(p: Pilot, c: Cache, tokens: nat, rows: seq<seq<Step>>, hysteresis: bool)
      returns (ok: bool, outs: seq<seq<seq<Expert>>>)
    requires c.Valid() && c.pinned == null && !p.AtEnd(c) && tokens > 0 && PrefillRoutable(c, tokens, rows)
    modifies p, c, c.slotOf, c.keyOf, c.usedAt, c.recordOfSlot, c.arena
    ensures c.Valid() && c.pinned == null && c.readFailures >= old(c.readFailures)
    ensures ok ==> p.AtEnd(c) && c.requests == old(c.requests) + RowRoutes(rows)
    ensures ok ==> |outs| == |rows| && forall l | 0 <= l < |rows| :: Complete(rows[l], outs[l])
    ensures ok && PartsInside(c.store) ==>
      forall l | 0 <= l < |rows| :: Delivered(c.store, c.slotBytes, rows[l], outs[l])
    ensures c.nSlots >= 1 && c.readFailures == old(c.readFailures) ==> ok
  {
    hide Sound, RowRoutable, Delivered, Complete, Routes, PartsInside;
    ok, outs := true, [];
    for l := 0 to |rows|
      invariant c.Valid() && c.pinned == null && c.readFailures >= old(c.readFailures) && ok && |outs| == l
      invariant if l > 0 then p.cache == c && p.lastLayer == l else !p.AtEnd(c)
      invariant c.requests == old(c.requests) + RowRoutes(rows[..l])
      invariant forall k | 0 <= k < l :: Complete(rows[k], outs[k])
      invariant PartsInside(c.store) ==> forall k | 0 <= k < l :: Delivered(c.store, c.slotBytes, rows[k], outs[k])
    {
      NextRow(rows, l);
      var out;
      ok, out := PrefillRow(p, c, l + 1, rows[l], hysteresis);
      if !ok {
        return;
      }
      outs := outs + [out];
    }
    assert rows[..|rows|] == rows;
  }

  /** A generation on a cache without pins: the prefill calls, layer by layer, and then the decode.  If no read fails
      nothing fails: the prefill runs without pins, they appear with the first decode call, from there on every get
      hits, and every pin stays resident until its layer is called again.  `hits` and `misses` are the counters at the
      transition. */
  method Generation(p: Pilot, c: Cache, tokens: nat, rows: seq<seq<Step>>, steps: seq<Step>, hysteresis: bool)
      returns (ok: bool, prefillOuts: seq<seq<seq<Expert>>>, outs: seq<seq<Expert>>,
               ghost hits: nat, ghost misses: nat, ghost trace: seq<Moment>)
    requires c.Valid() && c.pinned == null && !p.AtEnd(c) && tokens > 0 && PrefillRoutable(c, tokens, rows)
    requires AllRoutable(c, steps) && |steps| > 0 && steps[0].layer == 1
    modifies p, c, c.slotOf, c.keyOf, c.usedAt, c.recordOfSlot, c.arena
    ensures c.Valid() && c.readFailures >= old(c.readFailures)
    ensures c.readFailures == old(c.readFailures) ==> ok && c.pinned != null
    ensures ok && PartsInside(c.store) ==>
      |prefillOuts| == |rows| && (forall l | 0 <= l < |rows| ::
        Delivered(c.store, c.slotBytes, rows[l], prefillOuts[l])) &&
      Delivered(c.store, c.slotBytes, steps, outs)
    ensures ok ==>
      |prefillOuts| == |rows| && (forall l | 0 <= l < |rows| :: Complete(rows[l], prefillOuts[l])) &&
      Complete(steps, outs)
    ensures ok ==> hits + misses == old(c.requests) + RowRoutes(rows)
    ensures c.readFailures == old(c.readFailures) ==>
      c.hits == hits + Routes(steps) && c.misses == misses && Followed(c.store, steps, trace, hysteresis)
  {
    hide Sound, WithinBudget, Routable, Followed, Routes, RowRoutes, PrefillRoutable, PartsInside, Delivered, Complete;
    ok, prefillOuts := Prefill(p, c, tokens, rows, hysteresis);
    outs, hits, misses, trace := [], c.hits, c.misses, [];
    if !ok {
      return;
    }
    Balanced(c);
    NoPins(c.store.nLayers, c.store.nExperts);
    assert c.Pins() == {};
    ok, outs, trace := DecodeRun(p, c, steps, hysteresis);
  }

  lemma Balanced(c: Cache)
    requires c.Valid()
    ensures c.requests == c.hits + c.misses
  {
  }
}
