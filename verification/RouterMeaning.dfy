/** What a route is: its experts, read off the scores without the selection arrays, and its weights. */
module RouterMeaning {
  import opened Indexing
  import opened Lists
  import opened TopK
  import opened Vectors
  import opened Router

  // ---------------------------------------------------------------- route weights

  /** The unbiased scores of a list of experts, added up. */
  function ScoreSum(scores: Vec, ids: seq<int>, n: nat): real
    requires n <= |ids| && forall i | 0 <= i < |ids| :: ids[i] >= 0
  {
    if n == 0 then 0.0 else ScoreSum(scores, ids, n - 1) + At(scores, ids[n - 1])
  }

  predicate Normalised(cfg: Config) { cfg.topK > 1 && cfg.normalize }

  /** The weights stand in the ratio of the unbiased scores; normalised they are the shares of the total, up to the
      tiny summand, and otherwise the scores themselves, both times the scale. */
  ghost predicate Weighed(cfg: Config, scores: Vec, r: Routes) {
    |r.weights| == |r.ids| && (forall i | 0 <= i < |r.ids| :: r.ids[i] >= 0) &&
    (forall i, j | 0 <= i < |r.ids| && 0 <= j < |r.ids| ::
       Mul(r.weights[i], At(scores, r.ids[j])) == Mul(r.weights[j], At(scores, r.ids[i]))) &&
    var sum := ScoreSum(scores, r.ids, |r.ids|);
    if Normalised(cfg) then
      (forall i | 0 <= i < |r.ids| :: Mul(r.weights[i], sum + TINY) == Mul(cfg.scale, At(scores, r.ids[i]))) &&
      Mul(Total(r.weights, |r.weights|), sum + TINY) == Mul(cfg.scale, sum)
    else
      forall i | 0 <= i < |r.ids| :: r.weights[i] == Mul(cfg.scale, At(scores, r.ids[i]))
  }

  ghost predicate NonNegative(scores: Vec) { forall e: nat :: At(scores, e) >= 0.0 }

  lemma {:induction false} RawSum(scores: Vec, ids: seq<int>, n: nat)
    requires n <= |ids| && (forall i | 0 <= i < |ids| :: ids[i] >= 0) && NonNegative(scores)
    ensures Total(Raw(scores, ids), n) == ScoreSum(scores, ids, n) >= 0.0
  {
    if n > 0 {
      RawSum(scores, ids, n - 1);
    }
  }

  lemma {:induction false} ShareSum(scores: Vec, ids: seq<int>, weights: Vec, scale: real, denom: real, n: nat)
    requires n <= |ids| == |weights| && forall i | 0 <= i < |ids| :: ids[i] >= 0
    requires forall i | 0 <= i < |ids| :: Mul(weights[i], denom) == Mul(scale, At(scores, ids[i]))
    ensures Mul(Total(weights, n), denom) == Mul(scale, ScoreSum(scores, ids, n))
  {
    hide Mul;
    if n == 0 {
      MulSum(scale, denom, 0.0, 0.0, 0.0, 0.0);
    } else {
      ShareSum(scores, ids, weights, scale, denom, n - 1);
      MulSum(scale, denom, Total(weights, n - 1), weights[n - 1], ScoreSum(scores, ids, n - 1), At(scores, ids[n - 1]));
    }
  }

  lemma MulSum(scale: real, denom: real, a: real, b: real, x: real, y: real)
    ensures Mul(a + b, denom) == Mul(a, denom) + Mul(b, denom) && Mul(scale, x + y) == Mul(scale, x) + Mul(scale, y)
    ensures Mul(0.0, denom) == 0.0 == Mul(scale, 0.0)
  {
  }

  /** One normalised weight, and the ratio of two. */
  lemma Share(s: real, t: real, scale: real, denom: real)
    requires denom > 0.0
    ensures Mul(Mul(Div(s, denom), scale), denom) == Mul(scale, s)
    ensures Mul(Mul(Div(s, denom), scale), t) == Mul(Mul(Div(t, denom), scale), s)
    ensures Mul(Mul(s, scale), t) == Mul(Mul(t, scale), s) && Mul(s, scale) == Mul(scale, s)
  {
    var x, y := s / denom, t / denom;
    assert x * denom == s && y * denom == t;
    assert x * scale * denom == scale * (x * denom);
    assert x * scale * (y * denom) == y * scale * (x * denom);
    assert s * scale * t == t * scale * s;
  }

  lemma WeightsWeighed(cfg: Config, scores: Vec, ids: seq<int>)
    requires NonNegative(scores) && forall i | 0 <= i < |ids| :: ids[i] >= 0
    ensures Weighed(cfg, scores, Routes(ids, Weights(cfg, scores, ids)))
  {
    var w, raw, sum := Weights(cfg, scores, ids), Raw(scores, ids), ScoreSum(scores, ids, |ids|);
    RawSum(scores, ids, |ids|);
    var denom := sum + TINY;
    hide Mul, Div, NonNegative, ScoreSum, Total;
    forall i, j | 0 <= i < |ids| && 0 <= j < |ids|
      ensures Mul(w[i], At(scores, ids[j])) == Mul(w[j], At(scores, ids[i]))
      ensures Normalised(cfg) ==> Mul(w[i], denom) == Mul(cfg.scale, At(scores, ids[i]))
      ensures !Normalised(cfg) ==> w[i] == Mul(cfg.scale, At(scores, ids[i]))
    {
      Share(raw[i], raw[j], cfg.scale, denom);
    }
    if Normalised(cfg) {
      ShareSum(scores, ids, w, cfg.scale, denom, |ids|);
    }
  }

  /** With a positive scale a larger score gets a larger weight. */
  lemma HeavierIff(cfg: Config, scores: Vec, r: Routes, i: nat, j: nat)
    requires Weighed(cfg, scores, r) && NonNegative(scores) && cfg.scale > 0.0 && i < |r.ids| && j < |r.ids|
    ensures r.weights[i] < r.weights[j] <==> At(scores, r.ids[i]) < At(scores, r.ids[j])
  {
    ScoreSumPositive(scores, r.ids, |r.ids|);
    hide NonNegative, ScoreSum, Total, Mul, At;
    var a, b, x, y := At(scores, r.ids[i]), At(scores, r.ids[j]), r.weights[i], r.weights[j];
    if Normalised(cfg) {
      SameOrder(x, y, a, b, ScoreSum(scores, r.ids, |r.ids|) + TINY, cfg.scale);
    } else {
      TimesOne(x);
      TimesOne(y);
      SameOrder(x, y, a, b, 1.0, cfg.scale);
    }
  }

  lemma TimesOne(x: real)
    ensures Mul(x, 1.0) == x
  {
  }

  lemma SameOrder(x: real, y: real, a: real, b: real, denom: real, scale: real)
    requires denom > 0.0 && scale > 0.0 && Mul(x, denom) == Mul(scale, a) && Mul(y, denom) == Mul(scale, b)
    ensures x < y <==> a < b
  {
    assert x < y ==> (y - x) * denom > 0.0;
    assert x >= y ==> (x - y) * denom >= 0.0;
    assert a < b ==> (b - a) * scale > 0.0;
    assert a >= b ==> (a - b) * scale >= 0.0;
  }

  lemma {:induction false} ScoreSumPositive(scores: Vec, ids: seq<int>, n: nat)
    requires n <= |ids| && (forall i | 0 <= i < |ids| :: ids[i] >= 0) && NonNegative(scores)
    ensures ScoreSum(scores, ids, n) >= 0.0
  {
    if n > 0 {
      ScoreSumPositive(scores, ids, n - 1);
    }
  }

  /** The weights of the production router. */
  lemma RouteWeights(cfg: Config, scores: Vec, bias: Vec)
    requires Route(cfg, scores, bias).Some? && NonNegative(scores)
    ensures Weighed(cfg, scores, Route(cfg, scores, bias).value)
  {
    AllEnabled([], cfg.nExperts);
    PickedIds(cfg, scores, bias, KeptGroups(cfg, scores, bias), []);
    hide Weights, Pick, KeptGroups, Weighed, Distinct;
    WeightsWeighed(cfg, scores, Route(cfg, scores, bias).value.ids);
  }

  /** The weights of the masked router. */
  lemma MaskedWeights(cfg: Config, scores: Vec, bias: Vec, off: seq<bool>)
    requires RouteMasked(cfg, scores, bias, off).Some? && NonNegative(scores)
    ensures Weighed(cfg, scores, RouteMasked(cfg, scores, bias, off).value)
  {
    MaskedIdsEnabled(cfg, scores, bias, off);
    hide Weights, Pick, MaskedKept, Weighed, Distinct;
    WeightsWeighed(cfg, scores, RouteMasked(cfg, scores, bias, off).value.ids);
  }

  // ---------------------------------------------------------------- group scores

  /** The score of an expert with its correction. */
  function Corrected(scores: Vec, bias: Vec, e: nat): real { At(scores, e) + At(bias, e) }

  /** `e` is an enabled expert of group `g`. */
  predicate Of(off: seq<bool>, per: nat, g: nat, e: nat) { g * per <= e < g * per + per && !Flag(off, e) }

  /** `v` is what group `g` is worth: the largest sum of two corrected scores of its enabled experts, or the score of
      the only one. */
  ghost predicate Worth(scores: Vec, bias: Vec, off: seq<bool>, per: nat, g: nat, v: real) {
    (exists a: nat ::
       Of(off, per, g, a) && v == Corrected(scores, bias, a) && forall x: nat | Of(off, per, g, x) :: x == a) ||
    (exists a: nat, b: nat ::
       Of(off, per, g, a) && Of(off, per, g, b) && a != b &&
       v == Corrected(scores, bias, a) + Corrected(scores, bias, b) &&
       forall x: nat, y: nat | Of(off, per, g, x) && Of(off, per, g, y) && x != y ::
         Corrected(scores, bias, x) + Corrected(scores, bias, y) <= v)
  }

  /** The masked group score is what the group is worth, and minus infinity exactly for a group with no enabled
      expert. */
  lemma ScoreIsWorth(scores: Vec, bias: Vec, off: seq<bool>, per: nat, g: nat)
    ensures var s := MaskedScore(scores, bias, off, per, g);
            (s.NegInf? <==> forall e: nat :: !Of(off, per, g, e)) &&
            (s.Fin? ==> Worth(scores, bias, off, per, g, s.value))
  {
    var p := TopTwo(scores, bias, off, g * per, per);
    var a, b := TopTwoWitness(scores, bias, off, g * per, per);
    hide TopTwo, Flag, Choose, Worth;
    PairIsWorth(scores, bias, off, per, g, p, a, b);
  }

  lemma PairIsWorth(scores: Vec, bias: Vec, off: seq<bool>, per: nat, g: nat, p: Pair, a: nat, b: nat)
    requires TwoLargest(scores, bias, off, g * per, per, p, a, b) && (p.second.Fin? ==> p.first.Fin?)
    ensures p.first.NegInf? <==> forall e: nat :: !Of(off, per, g, e)
    ensures p.first.Fin? && p.second.NegInf? ==> Worth(scores, bias, off, per, g, p.first.value)
    ensures p.second.Fin? ==> Worth(scores, bias, off, per, g, p.first.value + p.second.value)
  {
    forall e: nat | Of(off, per, g, e)
      ensures !Above(Fin(Corrected(scores, bias, e)), p.first)
      ensures e != a ==> !Above(Fin(Corrected(scores, bias, e)), p.second)
    {
      assert Scored(scores, bias, off, g * per, per, e, Fin(Corrected(scores, bias, e)));
    }
    hide Corrected;
    if p.first.Fin? {
      assert Of(off, per, g, a) && p.first == Fin(Corrected(scores, bias, a));
      if p.second.Fin? {
        assert Of(off, per, g, b) && p.second == Fin(Corrected(scores, bias, b));
        hide Of, TwoLargest;
        forall x: nat, y: nat | Of(off, per, g, x) && Of(off, per, g, y) && x != y
          ensures Corrected(scores, bias, x) + Corrected(scores, bias, y) <= p.first.value + p.second.value
        {
        }
      }
    }
  }

  lemma {:induction false} WorthUnique(scores: Vec, bias: Vec, off: seq<bool>, per: nat, g: nat, u: real, v: real)
    requires Worth(scores, bias, off, per, g, u) && Worth(scores, bias, off, per, g, v)
    ensures u == v
  {
    hide Of, Corrected;
  }

  // ---------------------------------------------------------------- kept groups

  predicate Front(v: real, e: int, u: real, f: int) { v > u || (v == u && e < f) }

  /** The kept groups are the most valuable ones: no dropped group is worth more than a kept one, and a group with an
      enabled expert is dropped only when as many as asked for are kept. */
  ghost predicate BestGroups(cfg: Config, scores: Vec, bias: Vec, off: seq<bool>, kept: set<int>)
    requires cfg.Valid()
  {
    |kept| <= cfg.topkGroup && (forall g | g in kept :: 0 <= g < cfg.nGroup) &&
    (forall g: nat | g in kept :: exists e :: Of(off, cfg.Per(), g, e)) &&
    (forall g: nat, e | g < cfg.nGroup && g !in kept && Of(off, cfg.Per(), g, e) :: |kept| == cfg.topkGroup) &&
    forall g: nat, h: nat, v, u |
      g in kept && h < cfg.nGroup && h !in kept && Worth(scores, bias, off, cfg.Per(), g, v) &&
      Worth(scores, bias, off, cfg.Per(), h, u) :: Front(v, g, u, h)
  }

  function KeptSet(flags: seq<bool>): set<int> { set g | 0 <= g < |flags| && flags[g] }

  lemma {:induction false} GroupItemsAre(scores: Vec, bias: Vec, off: seq<bool>, per: nat, n: nat)
    ensures var items := MaskedGroups(scores, bias, off, per, n);
            DistinctIds(items) &&
            (forall c | c in items :: 0 <= c.id < n && c.score == MaskedScore(scores, bias, off, per, c.id)) &&
            forall g: nat | g < n :: Choice(MaskedScore(scores, bias, off, per, g), g) in items
  {
    if n > 0 {
      GroupItemsAre(scores, bias, off, per, n - 1);
      hide MaskedScore;
      var before := MaskedGroups(scores, bias, off, per, n - 1);
      forall i | 0 <= i < |before|
        ensures before[i].id < n - 1
      {
        assert before[i] in before;
      }
    }
  }

  /** Group `g` is kept exactly when it was selected and has an enabled expert. */
  lemma KeptIff(best: seq<Choice>, n: nat, g: int)
    ensures g in KeptSet(Keep(best, n, true)) <==> 0 <= g < n && exists c :: c in best && c.id == g && c.score.Fin?
  {
    if c :| c in best && c.id == g && c.score.Fin? && 0 <= g < n {
      var i :| 0 <= i < |best| && best[i] == c;
      assert Keep(best, n, true)[g];
    }
  }

  lemma KeptCard(best: seq<Choice>, n: nat)
    requires DistinctIds(best) && forall c | c in best :: 0 <= c.id < n
    ensures |KeptSet(Keep(best, n, true))| <= |best|
    ensures (forall c | c in best :: c.score.Fin?) ==> |KeptSet(Keep(best, n, true))| == |best|
  {
    var kept, ids := KeptSet(Keep(best, n, true)), Ids(best);
    hide KeptSet, Keep;
    forall g | g in kept
      ensures g in ids
    {
      KeptIff(best, n, g);
      var c :| c in best && c.id == g;
      var i :| 0 <= i < |best| && best[i] == c;
      assert ids[i] == g;
    }
    CoverCard(ids, kept);
    if forall c | c in best :: c.score.Fin? {
      forall g | g in ids
        ensures g in kept
      {
        var i :| 0 <= i < |ids| && ids[i] == g;
        assert best[i] in best;
        KeptIff(best, n, g);
      }
      DistinctCard(ids, kept);
    }
  }

  /** The group of a kept flag was selected, with the score of the group, which is finite. */
  lemma KeptItem(cfg: Config, scores: Vec, bias: Vec, off: seq<bool>, g: nat)
    requires cfg.Valid() && g in KeptSet(MaskedKept(cfg, scores, bias, off))
    ensures g < cfg.nGroup && MaskedScore(scores, bias, off, cfg.Per(), g).Fin?
    ensures Choice(MaskedScore(scores, bias, off, cfg.Per(), g), g) in
              TopOf(MaskedGroups(scores, bias, off, cfg.Per(), cfg.nGroup), cfg.topkGroup)
  {
    var items := MaskedGroups(scores, bias, off, cfg.Per(), cfg.nGroup);
    var best := TopOf(items, cfg.topkGroup);
    GroupItemsAre(scores, bias, off, cfg.Per(), cfg.nGroup);
    TopOfIn(items, cfg.topkGroup);
    hide KeptSet, Keep, MaskedGroups, TopOf, MaskedScore, DistinctIds;
    KeptIff(best, cfg.nGroup, g);
    var c :| c in best && c.id == g && c.score.Fin?;
    assert c in items;
  }

  /** The item of a dropped group with a finite score was not selected. */
  lemma DroppedItem(cfg: Config, scores: Vec, bias: Vec, off: seq<bool>, h: nat)
    requires cfg.Valid() && h < cfg.nGroup && h !in KeptSet(MaskedKept(cfg, scores, bias, off))
    requires MaskedScore(scores, bias, off, cfg.Per(), h).Fin?
    ensures var items := MaskedGroups(scores, bias, off, cfg.Per(), cfg.nGroup);
            var c := Choice(MaskedScore(scores, bias, off, cfg.Per(), h), h);
            c in items && c !in TopOf(items, cfg.topkGroup)
  {
    GroupItemsAre(scores, bias, off, cfg.Per(), cfg.nGroup);
    hide KeptSet, Keep, MaskedGroups, TopOf, MaskedScore, DistinctIds;
    KeptIff(TopOf(MaskedGroups(scores, bias, off, cfg.Per(), cfg.nGroup), cfg.topkGroup), cfg.nGroup, h);
  }

  /** A dropped group with an enabled expert leaves no place free, and no kept group is behind it. */
  lemma DroppedBehind(cfg: Config, scores: Vec, bias: Vec, off: seq<bool>, h: nat)
    requires cfg.Valid() && h < cfg.nGroup && h !in KeptSet(MaskedKept(cfg, scores, bias, off))
    requires MaskedScore(scores, bias, off, cfg.Per(), h).Fin?
    ensures |KeptSet(MaskedKept(cfg, scores, bias, off))| == cfg.topkGroup
    ensures forall g: nat | g in KeptSet(MaskedKept(cfg, scores, bias, off)) ::
      Better(Choice(MaskedScore(scores, bias, off, cfg.Per(), g), g),
             Choice(MaskedScore(scores, bias, off, cfg.Per(), h), h))
  {
    var items := MaskedGroups(scores, bias, off, cfg.Per(), cfg.nGroup);
    var best, c := TopOf(items, cfg.topkGroup), Choice(MaskedScore(scores, bias, off, cfg.Per(), h), h);
    DroppedItem(cfg, scores, bias, off, h);
    GroupItemsAre(scores, bias, off, cfg.Per(), cfg.nGroup);
    TopOfIsTop(items, cfg.topkGroup);
    BestDistinct(items, cfg.topkGroup, best);
    DroppedMeansFull(items, cfg.topkGroup, best, c);
    assert forall d | d in best :: d in items && Better(d, c);
    hide KeptSet, Keep, MaskedGroups, TopOf, MaskedScore, DistinctIds, IsTop, Better;
    KeptCard(best, cfg.nGroup);
    forall g: nat | g in KeptSet(MaskedKept(cfg, scores, bias, off))
      ensures Better(Choice(MaskedScore(scores, bias, off, cfg.Per(), g), g), c)
    {
      KeptItem(cfg, scores, bias, off, g);
    }
  }

  lemma KeptFew(cfg: Config, scores: Vec, bias: Vec, off: seq<bool>)
    requires cfg.Valid()
    ensures |KeptSet(MaskedKept(cfg, scores, bias, off))| <= cfg.topkGroup
  {
    var items := MaskedGroups(scores, bias, off, cfg.Per(), cfg.nGroup);
    GroupItemsAre(scores, bias, off, cfg.Per(), cfg.nGroup);
    TopOfIsTop(items, cfg.topkGroup);
    BestDistinct(items, cfg.topkGroup, TopOf(items, cfg.topkGroup));
    hide KeptSet, Keep, MaskedGroups, TopOf, MaskedScore, DistinctIds;
    KeptCard(TopOf(items, cfg.topkGroup), cfg.nGroup);
  }

  /** The flags of the masked router mark the best groups. */
  lemma GroupsAreBest(cfg: Config, scores: Vec, bias: Vec, off: seq<bool>)
    requires cfg.Valid()
    ensures BestGroups(cfg, scores, bias, off, KeptSet(MaskedKept(cfg, scores, bias, off)))
  {
    var per, kept := cfg.Per(), KeptSet(MaskedKept(cfg, scores, bias, off));
    KeptFew(cfg, scores, bias, off);
    hide MaskedKept, MaskedScore, Worth, Of, Better, Front, TopOf, MaskedGroups;
    forall g: nat | g in kept
      ensures g < cfg.nGroup && exists e :: Of(off, per, g, e)
    {
      KeptItem(cfg, scores, bias, off, g);
      ScoreIsWorth(scores, bias, off, per, g);
    }
    forall g: nat, e | g < cfg.nGroup && g !in kept && Of(off, per, g, e)
      ensures |kept| == cfg.topkGroup
    {
      ScoreIsWorth(scores, bias, off, per, g);
      DroppedBehind(cfg, scores, bias, off, g);
    }
    forall g: nat, h: nat, v, u |
      g in kept && h < cfg.nGroup && h !in kept && Worth(scores, bias, off, per, g, v) &&
      Worth(scores, bias, off, per, h, u)
      ensures Front(v, g, u, h)
    {
      WorthIsScore(scores, bias, off, per, g, v);
      WorthIsScore(scores, bias, off, per, h, u);
      DroppedBehind(cfg, scores, bias, off, h);
      BetterIsFront(v, g, u, h);
    }
  }

  lemma WorthIsScore(scores: Vec, bias: Vec, off: seq<bool>, per: nat, g: nat, v: real)
    requires Worth(scores, bias, off, per, g, v)
    ensures MaskedScore(scores, bias, off, per, g) == Fin(v)
  {
    ScoreIsWorth(scores, bias, off, per, g);
    hide MaskedScore, Of;
    var s := MaskedScore(scores, bias, off, per, g);
    if s.NegInf? {
      assert false;
    } else {
      WorthUnique(scores, bias, off, per, g, s.value, v);
    }
  }

  /** A finite item is dropped only when the selection is full of finite ones. */
  lemma DroppedMeansFull(items: seq<Choice>, k: nat, best: seq<Choice>, c: Choice)
    requires IsTop(items, k, best) && c in items && c !in best && c.score.Fin?
    ensures |best| == k && forall d | d in best :: d.score.Fin?
  {
    forall d | d in best
      ensures d.score.Fin?
    {
      assert Better(d, c);
    }
  }

  // ---------------------------------------------------------------- selected experts

  predicate Within(per: nat, g: int, e: nat) { g * per <= e < g * per + per }

  /** What the expert selection compares: the corrected score in a kept group, zero outside. */
  ghost function Value(cfg: Config, scores: Vec, bias: Vec, kept: set<int>, e: nat): real
    requires cfg.Valid()
  {
    if exists g :: g in kept && Within(cfg.Per(), g, e) then Corrected(scores, bias, e) else 0.0
  }

  /** The ids are the enabled experts of largest value, best first. */
  ghost predicate BestExperts(cfg: Config, scores: Vec, bias: Vec, off: seq<bool>, kept: set<int>, ids: seq<int>)
    requires cfg.Valid()
  {
    |ids| == cfg.topK && (forall i | 0 <= i < |ids| :: 0 <= ids[i] < cfg.nExperts && !Flag(off, ids[i])) &&
    (forall i, j | 0 <= i < j < |ids| ::
       Front(Value(cfg, scores, bias, kept, ids[i]), ids[i], Value(cfg, scores, bias, kept, ids[j]), ids[j])) &&
    forall i, e: nat | 0 <= i < |ids| && e < cfg.nExperts && !Flag(off, e) && e !in ids ::
      Front(Value(cfg, scores, bias, kept, ids[i]), ids[i], Value(cfg, scores, bias, kept, e), e)
  }

  /** The value is the score the selection loop streams. */
  lemma ItemIsValue(cfg: Config, scores: Vec, bias: Vec, flags: seq<bool>, e: nat)
    requires cfg.Valid() && |flags| == cfg.nGroup
    ensures ItemOf(scores, bias, flags, cfg.Per(), e) ==
            Choice(Fin(Value(cfg, scores, bias, KeptSet(flags), e)), e)
  {
    var per := cfg.Per();
    forall g
      ensures Within(per, g, e) <==> e / per == g
    {
      QuotientIff(e, g, per);
    }
    hide Within;
    assert e / per in KeptSet(flags) <==> Flag(flags, e / per);
  }

  /** The selection of experts, its ids and the values they were selected by. */
  lemma PickedValue(cfg: Config, scores: Vec, bias: Vec, flags: seq<bool>, off: seq<bool>, i: nat)
    requires cfg.Valid() && |flags| == cfg.nGroup && i < |Pick(cfg, scores, bias, flags, off)|
    ensures var c := Pick(cfg, scores, bias, flags, off)[i];
            c.id >= 0 && c == Choice(Fin(Value(cfg, scores, bias, KeptSet(flags), c.id)), c.id)
  {
    var items := ExpertItems(scores, bias, flags, cfg.Per(), off, cfg.nExperts);
    var best := Pick(cfg, scores, bias, flags, off);
    ItemsAre(scores, bias, flags, cfg.Per(), off, cfg.nExperts);
    TopOfIn(items, cfg.topK);
    hide ExpertItems, TopOf, ItemOf, Flag, Value, KeptSet, DistinctIds;
    assert best[i] in best;
    ItemIsValue(cfg, scores, bias, flags, best[i].id);
  }

  lemma PickedBeats(cfg: Config, scores: Vec, bias: Vec, flags: seq<bool>, off: seq<bool>, i: nat, e: nat)
    requires cfg.Valid() && i < |Pick(cfg, scores, bias, flags, off)| && e < cfg.nExperts && !Flag(off, e)
    requires e !in Ids(Pick(cfg, scores, bias, flags, off))
    ensures Better(Pick(cfg, scores, bias, flags, off)[i], ItemOf(scores, bias, flags, cfg.Per(), e))
  {
    var items := ExpertItems(scores, bias, flags, cfg.Per(), off, cfg.nExperts);
    ItemsAre(scores, bias, flags, cfg.Per(), off, cfg.nExperts);
    TopOfIsTop(items, cfg.topK);
    hide ExpertItems, TopOf, ItemOf, Flag, DistinctIds, IsTop, Better;
    Unpicked(items, cfg.topK, Pick(cfg, scores, bias, flags, off), ItemOf(scores, bias, flags, cfg.Per(), e), i);
  }

  lemma PickedOrder(cfg: Config, scores: Vec, bias: Vec, flags: seq<bool>, off: seq<bool>)
    requires cfg.Valid()
    ensures var best := Pick(cfg, scores, bias, flags, off);
            forall i, j | 0 <= i < j < |best| :: Better(best[i], best[j])
  {
    ItemsAre(scores, bias, flags, cfg.Per(), off, cfg.nExperts);
    TopOfIsTop(ExpertItems(scores, bias, flags, cfg.Per(), off, cfg.nExperts), cfg.topK);
  }

  lemma PicksAreBest(cfg: Config, scores: Vec, bias: Vec, flags: seq<bool>, off: seq<bool>)
    requires cfg.Valid() && |flags| == cfg.nGroup && Enabled(off, cfg.nExperts) >= cfg.topK
    ensures BestExperts(cfg, scores, bias, off, KeptSet(flags), Ids(Pick(cfg, scores, bias, flags, off)))
  {
    var best, kept := Pick(cfg, scores, bias, flags, off), KeptSet(flags);
    var ids := Ids(best);
    PickedIds(cfg, scores, bias, flags, off);
    PickedOrder(cfg, scores, bias, flags, off);
    hide ItemOf, Flag, Enabled, Value, KeptSet, Pick, Better, Front, Distinct;
    forall i, j | 0 <= i < j < |ids|
      ensures Front(Value(cfg, scores, bias, kept, ids[i]), ids[i], Value(cfg, scores, bias, kept, ids[j]), ids[j])
    {
      PickedValue(cfg, scores, bias, flags, off, i);
      PickedValue(cfg, scores, bias, flags, off, j);
      BetterIsFront(Value(cfg, scores, bias, kept, ids[i]), ids[i], Value(cfg, scores, bias, kept, ids[j]), ids[j]);
    }
    forall i, e: nat | 0 <= i < |ids| && e < cfg.nExperts && !Flag(off, e) && e !in ids
      ensures Front(Value(cfg, scores, bias, kept, ids[i]), ids[i], Value(cfg, scores, bias, kept, e), e)
    {
      PickedValue(cfg, scores, bias, flags, off, i);
      ItemIsValue(cfg, scores, bias, flags, e);
      PickedBeats(cfg, scores, bias, flags, off, i, e);
      BetterIsFront(Value(cfg, scores, bias, kept, ids[i]), ids[i], Value(cfg, scores, bias, kept, e), e);
    }
  }

  lemma BetterIsFront(v: real, e: int, u: real, f: int)
    ensures Better(Choice(Fin(v), e), Choice(Fin(u), f)) <==> Front(v, e, u, f)
  {
  }

  lemma Unpicked(items: seq<Choice>, k: nat, best: seq<Choice>, c: Choice, i: nat)
    requires IsTop(items, k, best) && c in items && c.id !in Ids(best) && i < |best|
    ensures Better(best[i], c)
  {
    NotPicked(best, c);
    assert best[i] in best;
  }

  lemma NotPicked(best: seq<Choice>, c: Choice)
    requires c.id !in Ids(best)
    ensures c !in best
  {
    forall i | 0 <= i < |best|
      ensures best[i].id != c.id
    {
      assert Ids(best)[i] in Ids(best);
    }
  }

  /** The masked router: the enabled experts of largest value, in the most valuable groups. */
  lemma MaskedRoute(cfg: Config, scores: Vec, bias: Vec, off: seq<bool>)
    requires RouteMasked(cfg, scores, bias, off).Some?
    ensures exists kept :: BestGroups(cfg, scores, bias, off, kept) &&
              BestExperts(cfg, scores, bias, off, kept, RouteMasked(cfg, scores, bias, off).value.ids)
  {
    var flags := MaskedKept(cfg, scores, bias, off);
    GroupsAreBest(cfg, scores, bias, off);
    PicksAreBest(cfg, scores, bias, flags, off);
    hide BestGroups, BestExperts, KeptSet, Weights;
    assert BestGroups(cfg, scores, bias, off, KeptSet(flags));
  }

  /** The production router: the experts of largest value, in the most valuable groups. */
  lemma OpenRoute(cfg: Config, scores: Vec, bias: Vec)
    requires Route(cfg, scores, bias).Some?
    ensures exists kept :: BestGroups(cfg, scores, bias, [], kept) &&
              BestExperts(cfg, scores, bias, [], kept, Route(cfg, scores, bias).value.ids)
  {
    var flags := MaskedKept(cfg, scores, bias, []);
    GroupsAreBest(cfg, scores, bias, []);
    AllEnabled([], cfg.nExperts);
    PicksAreBest(cfg, scores, bias, flags, []);
    KeptSame(cfg, scores, bias, []);
    hide BestGroups, BestExperts, KeptSet, Weights, KeptGroups, MaskedKept;
    assert BestGroups(cfg, scores, bias, [], KeptSet(flags));
  }
}
