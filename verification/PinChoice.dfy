/** Which two experts of a layer are pinned: old pins the router selected again, then the heaviest routes. */
module PinChoice {
  import opened Wrappers
  import opened Lists
  import opened TopK
  import opened Vectors
  import opened Router

  const PIN_COUNT: nat := 2

  function NPin(topK: nat): (n: nat)
    ensures n <= topK && n <= PIN_COUNT
  {
    if topK < PIN_COUNT then topK else PIN_COUNT
  }

  /** The routes whose expert is pinned already, scored by weight; the earlier route wins a tie. */
  function PinnedItems(ids: seq<int>, weights: Vec, pinned: set<int>, n: nat): seq<Choice>
    requires n <= |ids|
  {
    if n == 0 then []
    else
      PinnedItems(ids, weights, pinned, n - 1) +
      if ids[n - 1] in pinned then [Choice(Fin(At(weights, n - 1)), n - 1)] else []
  }

  /** The experts at the kept positions, without repetition. */
  function Experts(ids: seq<int>, best: seq<Choice>): seq<int> {
    if |best| == 0 then []
    else
      var r, at := Experts(ids, best[..|best| - 1]), best[|best| - 1].id;
      if !(0 <= at < |ids|) || ids[at] in r then r else r + [ids[at]]
  }

  function Retained(ids: seq<int>, weights: Vec, pinned: set<int>): seq<int> {
    Experts(ids, TopOf(PinnedItems(ids, weights, pinned, |ids|), NPin(|ids|)))
  }

  /** The first of the heaviest routes whose expert is not chosen yet, -1 if there is none. */
  function Heaviest(ids: seq<int>, weights: Vec, pins: seq<int>, n: nat): (best: int)
    requires n <= |ids|
    ensures -1 <= best < n
  {
    if n == 0 then -1
    else
      var best := Heaviest(ids, weights, pins, n - 1);
      if ids[n - 1] in pins then best
      else if best < 0 || At(weights, n - 1) > At(weights, best) then n - 1
      else best
  }

  function Fill(ids: seq<int>, weights: Vec, pins: seq<int>, nPin: nat): Option<seq<int>>
    decreases nPin - |pins|
  {
    if |pins| >= nPin then Some(pins)
    else
      var best := Heaviest(ids, weights, pins, |ids|);
      if best < 0 then None else Fill(ids, weights, pins + [ids[best]], nPin)
  }

  function PinsFor(ids: seq<int>, weights: Vec, pinned: set<int>, hysteresis: bool): Option<seq<int>> {
    Fill(ids, weights, if hysteresis then Retained(ids, weights, pinned) else [], NPin(|ids|))
  }

  // ---------------------------------------------------------------- what is chosen

  lemma {:induction false} PinnedItemsAre(ids: seq<int>, weights: Vec, pinned: set<int>, n: nat)
    requires n <= |ids|
    ensures var items := PinnedItems(ids, weights, pinned, n);
            DistinctIds(items) && (forall c | c in items :: 0 <= c.id < n && ids[c.id] in pinned) &&
            forall j: nat | j < n && ids[j] in pinned :: Choice(Fin(At(weights, j)), j) in items
  {
    if n > 0 {
      PinnedItemsAre(ids, weights, pinned, n - 1);
      var before := PinnedItems(ids, weights, pinned, n - 1);
      forall i | 0 <= i < |before|
        ensures before[i].id < n - 1
      {
        assert before[i] in before;
      }
    }
  }

  lemma {:induction false} ExpertsAre(ids: seq<int>, best: seq<Choice>)
    requires forall c | c in best :: 0 <= c.id < |ids|
    ensures var r := Experts(ids, best);
            Distinct(r) && |r| <= |best| && (forall e | e in r :: exists c :: c in best && e == ids[c.id]) &&
            forall c | c in best :: ids[c.id] in r
    decreases |best|
  {
    if |best| > 0 {
      var init, last := best[..|best| - 1], best[|best| - 1];
      assert best == init + [last];
      ExpertsAre(ids, init);
    }
  }

  lemma RetainedFacts(ids: seq<int>, weights: Vec, pinned: set<int>)
    ensures var r := Retained(ids, weights, pinned);
            Distinct(r) && |r| <= NPin(|ids|) && forall e | e in r :: e in ids && e in pinned
  {
    var items, k := PinnedItems(ids, weights, pinned, |ids|), NPin(|ids|);
    PinnedItemsAre(ids, weights, pinned, |ids|);
    TopOfIsTop(items, k);
    hide PinnedItems, TopOf;
    ExpertsAre(ids, TopOf(items, k));
  }

  /** Old pins that are still routed are exactly the retained ones, when there are no more of them than pin slots. */
  lemma RetainedExactly(ids: seq<int>, weights: Vec, pinned: set<int>)
    requires Distinct(ids) && |pinned| <= PIN_COUNT
    ensures Members(Retained(ids, weights, pinned)) == pinned * Members(ids)
  {
    hide PinnedItems, TopOf, IsTop, DistinctIds, Experts, Distinct;
    var items, k := PinnedItems(ids, weights, pinned, |ids|), NPin(|ids|);
    PinnedItemsAre(ids, weights, pinned, |ids|);
    TopOfIsTop(items, k);
    TopOfLength(items, k);
    RetainedFacts(ids, weights, pinned);
    FewItems(ids, weights, pinned);
    var best := TopOf(items, k);
    ExpertsAre(ids, best);
    forall e | e in pinned && e in ids
      ensures e in Retained(ids, weights, pinned)
    {
      var j :| 0 <= j < |ids| && ids[j] == e;
      var c := Choice(Fin(At(weights, j)), j);
      assert c in items;
      AllSelected(items, k, best, c);
      assert ids[c.id] == e;
    }
    var r := Retained(ids, weights, pinned);
    hide Retained;
    assert forall e :: e in Members(r) <==> e in pinned * Members(ids);
  }

  /** With no more items than places, everything is selected. */
  lemma AllSelected(items: seq<Choice>, k: nat, best: seq<Choice>, c: Choice)
    requires DistinctIds(items) && |items| <= k && IsTop(items, k, best) && |best| == |items| && c in items
    ensures c in best
  {
    if c !in best {
      DistinctCard(best, Set(items) - {c});
      CoverCard(items, Set(items));
    }
  }

  lemma FewItems(ids: seq<int>, weights: Vec, pinned: set<int>)
    requires Distinct(ids) && |pinned| <= PIN_COUNT
    ensures |PinnedItems(ids, weights, pinned, |ids|)| <= NPin(|ids|)
  {
    var items := PinnedItems(ids, weights, pinned, |ids|);
    PinnedItemsAre(ids, weights, pinned, |ids|);
    hide PinnedItems;
    var experts := seq(|items|, i requires 0 <= i < |items| => if 0 <= items[i].id < |ids|
      then ids[items[i].id] else -1);
    forall i | 0 <= i < |items|
      ensures 0 <= items[i].id < |ids| && experts[i] == ids[items[i].id] && experts[i] in pinned
    {
      assert items[i] in items;
    }
    forall i, j | 0 <= i < j < |items|
      ensures experts[i] != experts[j]
    {
      var a, b := items[i].id, items[j].id;
      assert a < b || b < a;
    }
    DistinctCard(experts, pinned);
  }

  /** The chosen route is the heaviest free one, the first of them on ties. */
  lemma {:induction false} HeaviestMeaning(ids: seq<int>, weights: Vec, pins: seq<int>, n: nat)
    requires n <= |ids|
    ensures var best := Heaviest(ids, weights, pins, n);
            (best < 0 <==> forall j | 0 <= j < n :: ids[j] in pins) &&
            (best >= 0 ==> ids[best] !in pins) &&
            (best >= 0 ==>
               forall j: nat | j < n && ids[j] !in pins ::
                 At(weights, j) < At(weights, best) || (At(weights, j) == At(weights, best) && best <= j))
  {
    if n > 0 {
      HeaviestMeaning(ids, weights, pins, n - 1);
    }
  }

  lemma {:induction false} FillFacts(ids: seq<int>, weights: Vec, pins: seq<int>, nPin: nat)
    requires Distinct(pins) && |pins| <= nPin && forall e | e in pins :: e in ids
    ensures Fill(ids, weights, pins, nPin).Some? ==>
              var r := Fill(ids, weights, pins, nPin).value;
              |r| == nPin && Distinct(r) && pins <= r && forall e | e in r :: e in ids
    ensures Distinct(ids) && nPin <= |ids| ==> Fill(ids, weights, pins, nPin).Some?
    decreases nPin - |pins|
  {
    if |pins| < nPin {
      HeaviestMeaning(ids, weights, pins, |ids|);
      var best := Heaviest(ids, weights, pins, |ids|);
      if best >= 0 {
        FillFacts(ids, weights, pins + [ids[best]], nPin);
      } else if Distinct(ids) && nPin <= |ids| {
        CoverAll(ids, pins);
      }
    }
  }

  lemma CoverAll(ids: seq<int>, pins: seq<int>)
    requires Distinct(ids) && forall j | 0 <= j < |ids| :: ids[j] in pins
    ensures |ids| <= |pins|
  {
    DistinctCard(ids, Members(pins));
    CoverCard(pins, Members(pins));
  }

  /** Route `b` beats every route whose expert is not in `taken`: it is heavier, or as heavy and not later. */
  ghost predicate BeatsFree(ids: seq<int>, weights: Vec, taken: seq<int>, b: nat) {
    forall j: nat | j < |ids| && ids[j] !in taken ::
      At(weights, j) < At(weights, b) || (At(weights, j) == At(weights, b) && b <= j)
  }

  /** From place `from` on, each pin is the heaviest route whose expert has not been chosen before it. */
  ghost predicate FilledByWeight(ids: seq<int>, weights: Vec, r: seq<int>, from: nat) {
    forall p | from <= p < |r| :: exists b: nat :: b < |ids| && ids[b] == r[p] && BeatsFree(ids, weights, r[..p], b)
  }

  lemma {:induction false} FillByWeight(ids: seq<int>, weights: Vec, pins: seq<int>, nPin: nat)
    ensures var r := Fill(ids, weights, pins, nPin);
            r.Some? ==> pins <= r.value && FilledByWeight(ids, weights, r.value, |pins|)
    decreases nPin - |pins|
  {
    if |pins| < nPin {
      HeaviestMeaning(ids, weights, pins, |ids|);
      var best := Heaviest(ids, weights, pins, |ids|);
      if best >= 0 {
        FillByWeight(ids, weights, pins + [ids[best]], nPin);
        var r := Fill(ids, weights, pins, nPin);
        hide Fill;
        if r.Some? {
          assert r.value[..|pins|] == pins && r.value[|pins|] == ids[best];
          assert BeatsFree(ids, weights, r.value[..|pins|], best);
        }
      }
    }
  }

  /** A route that is not pinned is no heavier than any filled pin, and on equal weight it comes later. */
  lemma FilledAreHeaviest(ids: seq<int>, weights: Vec, pinned: set<int>, hysteresis: bool, i: nat, j: nat, p: nat)
    requires Distinct(ids) && i < |ids| && j < |ids| && PinsFor(ids, weights, pinned, hysteresis).Some?
    requires var r := PinsFor(ids, weights, pinned, hysteresis).value;
             (if hysteresis then |Retained(ids, weights, pinned)| else 0) <= p < |r| && ids[i] == r[p] && ids[j] !in r
    ensures At(weights, j) < At(weights, i) || (At(weights, j) == At(weights, i) && i < j)
  {
    FillByWeight(ids, weights, if hysteresis then Retained(ids, weights, pinned) else [], NPin(|ids|));
    hide Fill, Retained, At, BeatsFree;
    var r := PinsFor(ids, weights, pinned, hysteresis).value;
    var b: nat :| b < |ids| && ids[b] == r[p] && BeatsFree(ids, weights, r[..p], b);
    assert b == i && ids[j] !in r[..p] && i != j;
    Beaten(ids, weights, r[..p], i, j);
  }

  lemma Beaten(ids: seq<int>, weights: Vec, taken: seq<int>, b: nat, j: nat)
    requires BeatsFree(ids, weights, taken, b) && j < |ids| && ids[j] !in taken && b != j
    ensures At(weights, j) < At(weights, b) || (At(weights, j) == At(weights, b) && b < j)
  {
  }

  /** All routes, scored by weight. */
  function RouteItems(ids: seq<int>, weights: Vec): (items: seq<Choice>)
    ensures DistinctIds(items)
  {
    seq(|ids|, j requires 0 <= j => Choice(Fin(At(weights, j)), j))
  }

  /** The choice is the route of pin `p`, the heaviest of those not chosen before. */
  ghost predicate Placed(ids: seq<int>, weights: Vec, r: seq<int>, p: nat, c: Choice)
    requires p < |r|
  {
    0 <= c.id < |ids| && ids[c.id] == r[p] && c.score == Fin(At(weights, c.id)) &&
    BeatsFree(ids, weights, r[..p], c.id)
  }

  /** Without hysteresis the pins are the best routes by weight, best first. */
  lemma PinsAreTop(ids: seq<int>, weights: Vec, pinned: set<int>) returns (best: seq<Choice>)
    requires Distinct(ids)
    ensures PinsFor(ids, weights, pinned, false).Some? && IsTop(RouteItems(ids, weights), NPin(|ids|), best)
    ensures var r := PinsFor(ids, weights, pinned, false).value;
            |r| == |best| == NPin(|ids|) &&
            forall p | 0 <= p < |best| :: 0 <= best[p].id < |ids| && r[p] == ids[best[p].id]
  {
    PinsForFacts(ids, weights, pinned, false);
    hide PinsFor, BeatsFree, At;
    var r := PinsFor(ids, weights, pinned, false).value;
    best := PlaceAll(ids, weights, r, |r|);
    PlacedIsTop(ids, weights, r, best);
  }

  lemma {:induction false} PlaceAll(ids: seq<int>, weights: Vec, r: seq<int>, n: nat) returns (best: seq<Choice>)
    requires FilledByWeight(ids, weights, r, 0) && n <= |r|
    ensures |best| == n && forall p | 0 <= p < n :: Placed(ids, weights, r, p, best[p])
  {
    best := [];
    if n > 0 {
      best := PlaceAll(ids, weights, r, n - 1);
      var b: nat :| b < |ids| && ids[b] == r[n - 1] && BeatsFree(ids, weights, r[..n - 1], b);
      best := best + [Choice(Fin(At(weights, b)), b)];
    }
  }

  /** A placed choice is better than every route that was free at its turn. */
  lemma PlacedBeats(ids: seq<int>, weights: Vec, r: seq<int>, p: nat, c: Choice, d: Choice)
    requires p < |r| && Placed(ids, weights, r, p, c)
    requires 0 <= d.id < |ids| && d.score == Fin(At(weights, d.id)) && ids[d.id] !in r[..p] && d.id != c.id
    ensures Better(c, d)
  {
    hide At;
    Beaten(ids, weights, r[..p], c.id, d.id);
  }

  lemma PlacedIsTop(ids: seq<int>, weights: Vec, r: seq<int>, best: seq<Choice>)
    requires Distinct(ids) && Distinct(r) && |best| == |r| == NPin(|ids|)
    requires forall p | 0 <= p < |best| :: Placed(ids, weights, r, p, best[p])
    ensures IsTop(RouteItems(ids, weights), NPin(|ids|), best)
  {
    hide Better, BeatsFree, At;
    var items := RouteItems(ids, weights);
    assert forall c | c in items :: 0 <= c.id < |ids| && c.score == Fin(At(weights, c.id));
    forall c | c in best
      ensures c in items
    {
      var p :| 0 <= p < |best| && best[p] == c;
      assert items[c.id] == c;
    }
    forall p, q | 0 <= p < q < |best|
      ensures Better(best[p], best[q])
    {
      LaterFree(ids, r, p, q);
      PlacedBeats(ids, weights, r, p, best[p], best[q]);
    }
    hide RouteItems;
    forall c, d | c in items && c !in best && d in best
      ensures Better(d, c)
    {
      var p :| 0 <= p < |best| && best[p] == d;
      forall q | 0 <= q < p
        ensures r[q] != ids[c.id]
      {
        assert best[q] in best;
      }
      PlacedBeats(ids, weights, r, p, d, c);
    }
  }

  lemma LaterFree(ids: seq<int>, r: seq<int>, p: nat, q: nat)
    requires Distinct(r) && p < q < |r|
    ensures r[q] !in r[..p] && r[q] != r[p]
  {
  }

  lemma {:induction false} ExpertsLength(ids: seq<int>, best: seq<Choice>)
    requires Distinct(ids) && DistinctIds(best) && forall c | c in best :: 0 <= c.id < |ids|
    ensures |Experts(ids, best)| == |best|
    decreases |best|
  {
    if |best| > 0 {
      var init, last := best[..|best| - 1], best[|best| - 1];
      assert best == init + [last];
      ExpertsLength(ids, init);
      ExpertsAre(ids, init);
      forall c | c in init
        ensures ids[c.id] != ids[last.id]
      {
        var i :| 0 <= i < |init| && init[i] == c;
        assert best[i].id != best[|best| - 1].id;
      }
    }
  }

  /** When an old pin is routed and not retained, the pin slots are full of old pins that are heavier, or as heavy and
      routed earlier. */
  lemma RetainedAreHeaviest(ids: seq<int>, weights: Vec, pinned: set<int>, i: nat, j: nat)
    requires Distinct(ids) && i < |ids| && j < |ids| && ids[i] in Retained(ids, weights, pinned)
    requires ids[j] in pinned && ids[j] !in Retained(ids, weights, pinned)
    ensures |Retained(ids, weights, pinned)| == NPin(|ids|)
    ensures At(weights, j) < At(weights, i) || (At(weights, j) == At(weights, i) && i < j)
  {
    var items, k := PinnedItems(ids, weights, pinned, |ids|), NPin(|ids|);
    var best := TopOf(items, k);
    PinnedItemsAre(ids, weights, pinned, |ids|);
    TopOfIsTop(items, k);
    hide PinnedItems, TopOf, Experts;
    ExpertsAre(ids, best);
    var a :| a in best && ids[i] == ids[a.id];
    var b := Choice(Fin(At(weights, j)), j);
    assert b in items && b !in best && Better(a, b);
    BestDistinct(items, k, best);
    ExpertsLength(ids, best);
    var mine := Choice(Fin(At(weights, i)), i);
    assert ids[i] in pinned && mine in items;
    SameId(items, a, mine);
  }

  /** The pins are distinct routed experts, as many as there are pin slots; retained ones come first, the others are
      the heaviest free routes one after the other, and distinct routes always suffice. */
  lemma PinsForFacts(ids: seq<int>, weights: Vec, pinned: set<int>, hysteresis: bool)
    ensures PinsFor(ids, weights, pinned, hysteresis).Some? ==>
              var r := PinsFor(ids, weights, pinned, hysteresis).value;
              |r| == NPin(|ids|) == (if |ids| < 2 then |ids| else 2) && Distinct(r) &&
              (forall e | e in r :: e in ids) && (hysteresis ==> Retained(ids, weights, pinned) <= r) &&
              FilledByWeight(ids, weights, r, if hysteresis then |Retained(ids, weights, pinned)| else 0)
    ensures Distinct(ids) ==> PinsFor(ids, weights, pinned, hysteresis).Some?
  {
    RetainedFacts(ids, weights, pinned);
    hide Retained, Fill, FilledByWeight;
    var start := if hysteresis then Retained(ids, weights, pinned) else [];
    FillFacts(ids, weights, start, NPin(|ids|));
    FillByWeight(ids, weights, start, NPin(|ids|));
  }
}
