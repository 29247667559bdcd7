/** The routers as they are written: score, group, insertion and weight loops over buffers. */
module RouterLoops {
  import opened Wrappers
  import opened TopK
  import opened Vectors
  import opened Router
  import opened RouterMeaning

  /** Sigmoid scores of all experts: one dot product with the hidden state each. */
  function Scores(sigmoid: real -> real, cfg: Config, x: Vec, weight: seq<Vec>): (s: Vec)
    requires cfg.Valid()
    ensures |s| == cfg.nExperts
  {
    seq(cfg.nExperts, e requires 0 <= e < cfg.nExperts => sigmoid(Dot(Row(weight, e), x, cfg.hidden)))
  }

  method ScoreExperts(sigmoid: real -> real, cfg: Config, x: Vec, weight: seq<Vec>) returns (scores: array<real>)
    requires cfg.Valid()
    ensures fresh(scores) && scores[..] == Scores(sigmoid, cfg, x, weight)
  {
    scores := new real[cfg.nExperts];
    for e := 0 to cfg.nExperts
      invariant scores[..e] == Scores(sigmoid, cfg, x, weight)[..e]
    {
      var z := 0.0;
      for i := 0 to cfg.hidden
        invariant z == Dot(Row(weight, e), x, i)
      {
        z := z + Mul(At(Row(weight, e), i), At(x, i));
      }
      scores[e] := sigmoid(z);
    }
  }

  /** The running pair of one group. */
  method TopTwoLoop(scores: Vec, bias: Vec, off: seq<bool>, begin: nat, per: nat) returns (a: Ext, b: Ext, count: nat)
    ensures Pair(a, b, count) == TopTwo(scores, bias, off, begin, per)
  {
    a, b, count := NegInf, NegInf, 0;
    for j := 0 to per
      invariant Pair(a, b, count) == TopTwo(scores, bias, off, begin, j)
    {
      var e := begin + j;
      if !Flag(off, e) {
        count := count + 1;
        var v := Fin(Choose(scores, bias, e));
        if Above(v, a) {
          a, b := v, a;
        } else if Above(v, b) {
          b := v;
        }
      }
    }
  }

  method NewBest(k: nat) returns (best: array<Choice>)
    ensures fresh(best) && best[..] == Padded([], k)
  {
    best := new Choice[k](_ => BLANK);
  }

  ghost predicate Selected(best: array<Choice>, items: seq<Choice>)
    reads best
  {
    var live := TopOf(items, best.Length);
    Live(live) && |live| <= best.Length && best[..] == Padded(live, best.Length)
  }

  /** One more item streamed into the selection. */
  method Stream(best: array<Choice>, c: Choice, ghost items: seq<Choice>)
    requires Selected(best, items) && c.id >= 0
    modifies best
    ensures Selected(best, items + [c])
  {
    hide Padded, Insert, Live;
    assert (items + [c])[..|items|] == items;
    InsertTop(best, c, TopOf(items, best.Length));
  }

  lemma StartSelected(best: array<Choice>)
    requires best[..] == Padded([], best.Length)
    ensures Selected(best, [])
  {
  }

  method SelectGroups(scores: Vec, bias: Vec, per: nat, nGroup: nat, topkGroup: nat) returns (best: array<Choice>)
    ensures fresh(best) && best.Length == topkGroup && Selected(best, GroupItems(scores, bias, per, nGroup))
  {
    hide Padded, TopOf, TopTwo;
    best := NewBest(topkGroup);
    PaddedLength([], topkGroup);
    StartSelected(best);
    for g := 0 to nGroup
      invariant Selected(best, GroupItems(scores, bias, per, g))
    {
      var a, b, _ := TopTwoLoop(scores, bias, [], g * per, per);
      if per == 1 {
        b := Fin(0.0);
      }
      Stream(best, Choice(Plus(a, b), g), GroupItems(scores, bias, per, g));
    }
  }

  method SelectMaskedGroups(scores: Vec, bias: Vec, off: seq<bool>, per: nat, nGroup: nat, topkGroup: nat)
      returns (best: array<Choice>)
    ensures fresh(best) && best.Length == topkGroup && Selected(best, MaskedGroups(scores, bias, off, per, nGroup))
  {
    hide Padded, TopOf, TopTwo;
    best := NewBest(topkGroup);
    PaddedLength([], topkGroup);
    StartSelected(best);
    for g := 0 to nGroup
      invariant Selected(best, MaskedGroups(scores, bias, off, per, g))
    {
      var a, b, count := TopTwoLoop(scores, bias, off, g * per, per);
      var score := if count == 0 then NegInf else if count == 1 then a else Plus(a, b);
      Stream(best, Choice(score, g), MaskedGroups(scores, bias, off, per, g));
    }
  }

  /** The flags of the selected groups. */
  method MarkKept(best: array<Choice>, nGroup: nat, finiteOnly: bool, ghost items: seq<Choice>)
      returns (kept: array<bool>)
    requires Selected(best, items) && forall c | c in items :: 0 <= c.id < nGroup
    ensures fresh(kept) && kept[..] == Keep(TopOf(items, best.Length), nGroup, finiteOnly)
  {
    ghost var live := TopOf(items, best.Length);
    TopOfIn(items, best.Length);
    hide TopOf;
    assert forall i | 0 <= i < best.Length :: best[i] == best[..][i] == if i < |live| then live[i] else BLANK;
    assert forall i | 0 <= i < |live| :: live[i] in items;
    kept := new bool[nGroup](_ => false);
    for i := 0 to best.Length
      invariant forall g | 0 <= g < nGroup ::
        kept[g] <==> exists j | 0 <= j < |live| && j < i :: live[j].id == g && (finiteOnly ==> live[j].score.Fin?)
    {
      if best[i].id >= 0 && (finiteOnly ==> best[i].score.Fin?) {
        kept[best[i].id] := true;
      }
    }
  }

  method SelectExperts(scores: Vec, bias: Vec, kept: seq<bool>, per: nat, off: seq<bool>, nExperts: nat, topK: nat)
      returns (best: array<Choice>)
    requires per > 0
    ensures fresh(best) && best.Length == topK && Selected(best, ExpertItems(scores, bias, kept, per, off, nExperts))
  {
    hide Padded, TopOf;
    best := NewBest(topK);
    PaddedLength([], topK);
    StartSelected(best);
    for e := 0 to nExperts
      invariant Selected(best, ExpertItems(scores, bias, kept, per, off, e))
    {
      if Flag(off, e) {
        assert ExpertItems(scores, bias, kept, per, off, e + 1) == ExpertItems(scores, bias, kept, per, off, e);
      } else {
        var v := Fin(if Flag(kept, e / per) then Choose(scores, bias, e) else 0.0);
        Stream(best, Choice(v, e), ExpertItems(scores, bias, kept, per, off, e));
      }
    }
  }

  /** The ids and the normalised weights. */
  method WeighRoutes(cfg: Config, scores: Vec, ids: seq<int>) returns (weights: array<real>)
    requires |ids| == cfg.topK && forall i | 0 <= i < |ids| :: ids[i] >= 0
    ensures fresh(weights) && weights[..] == Weights(cfg, scores, ids)
    ensures NonNegative(scores) ==> Weighed(cfg, scores, Routes(ids, weights[..]))
  {
    if NonNegative(scores) {
      WeightsWeighed(cfg, scores, ids);
    }
    hide Mul, Div, NonNegative, Weighed;
    weights := new real[cfg.topK];
    ghost var raw := Raw(scores, ids);
    var sum := 0.0;
    for i := 0 to cfg.topK
      invariant sum == Total(raw, i) && forall j | 0 <= j < i :: weights[j] == raw[j]
    {
      weights[i] := At(scores, ids[i]);
      sum := sum + weights[i];
    }
    var denom := sum + TINY;
    var scaled := cfg.topK > 1 && cfg.normalize;
    for i := 0 to cfg.topK
      invariant forall j | 0 <= j < i :: weights[j] == Weights(cfg, scores, ids)[j]
      invariant forall j | i <= j < cfg.topK :: weights[j] == raw[j]
    {
      weights[i] := if scaled then Mul(Div(weights[i], denom), cfg.scale) else Mul(weights[i], cfg.scale);
    }
  }

  lemma GroupIds(scores: Vec, bias: Vec, off: seq<bool>, per: nat, n: nat)
    ensures forall c | c in GroupItems(scores, bias, per, n) :: 0 <= c.id < n
    ensures forall c | c in MaskedGroups(scores, bias, off, per, n) :: 0 <= c.id < n
  {
    hide GroupScore, MaskedScore;
    if n > 0 {
      GroupIds(scores, bias, off, per, n - 1);
    }
  }

  /** What the array of a full selection holds. */
  lemma FullSelection(best: array<Choice>, cfg: Config, scores: Vec, bias: Vec, kept: seq<bool>, off: seq<bool>)
    requires cfg.Valid() && Enabled(off, cfg.nExperts) >= cfg.topK && best.Length == cfg.topK
    requires Selected(best, ExpertItems(scores, bias, kept, cfg.Per(), off, cfg.nExperts))
    ensures best[..] == Pick(cfg, scores, bias, kept, off) && forall i | 0 <= i < best.Length :: best[i].id >= 0
  {
    PickedIds(cfg, scores, bias, kept, off);
    hide ExpertItems, TopOf, Enabled;
    var live := Pick(cfg, scores, bias, kept, off);
    forall i | 0 <= i < best.Length
      ensures best[i] == live[i] && best[i].id >= 0
    {
      PaddedAt(live, best.Length, i);
      assert best[..][i] == best[i] && Ids(live)[i] >= 0;
    }
  }

  method TakeIds(best: array<Choice>) returns (ids: array<int>)
    ensures fresh(ids) && ids[..] == Ids(best[..])
  {
    ids := new int[best.Length];
    for i := 0 to best.Length
      invariant forall j | 0 <= j < i :: ids[j] == best[j].id
    {
      ids[i] := best[i].id;
    }
  }

  /** `kvl_router_noaux_tc`. */
  method RouteTokens(sigmoid: real -> real, cfg: Config, x: Vec, weight: seq<Vec>, bias: Vec)
      returns (r: Option<Routes>)
    ensures r == if cfg.Valid() then Route(cfg, Scores(sigmoid, cfg, x, weight), bias) else None
    ensures cfg.Valid() && NonNegative(Scores(sigmoid, cfg, x, weight)) ==>
      r.Some? && Weighed(cfg, Scores(sigmoid, cfg, x, weight), r.value)
  {
    hide Selected, GroupItems, ExpertItems, TopOf, Weights, Ids, Keep, NonNegative, Weighed, Scores;
    if !cfg.Valid() {
      return None;
    }
    var scores := ScoreExperts(sigmoid, cfg, x, weight);
    var s, per := scores[..], cfg.Per();
    var gbest := SelectGroups(s, bias, per, cfg.nGroup, cfg.topkGroup);
    GroupIds(s, bias, [], per, cfg.nGroup);
    var kept := MarkKept(gbest, cfg.nGroup, false, GroupItems(s, bias, per, cfg.nGroup));
    var ebest := SelectExperts(s, bias, kept[..], per, [], cfg.nExperts, cfg.topK);
    AllEnabled([], cfg.nExperts);
    FullSelection(ebest, cfg, s, bias, kept[..], []);
    var ids := TakeIds(ebest);
    PickedIds(cfg, s, bias, kept[..], []);
    var weights := WeighRoutes(cfg, s, ids[..]);
    return Some(Routes(ids[..], weights[..]));
  }

  method CountEnabledLoop(off: seq<bool>, n: nat) returns (enabled: nat)
    ensures enabled == Enabled(off, n)
  {
    enabled := 0;
    for e := 0 to n
      invariant enabled == Enabled(off, e)
    {
      if !Flag(off, e) {
        enabled := enabled + 1;
      }
    }
  }

  /** `q8_router_for_layer` once a mask has been loaded: `off` are the disabled experts of the layer. */
  method RouteMaskedTokens(sigmoid: real -> real, cfg: Config, x: Vec, weight: seq<Vec>, bias: Vec, off: seq<bool>)
      returns (r: Option<Routes>)
    ensures r == if cfg.Valid() then RouteMasked(cfg, Scores(sigmoid, cfg, x, weight), bias, off) else None
    ensures r.Some? && cfg.Valid() && NonNegative(Scores(sigmoid, cfg, x, weight)) ==>
      Weighed(cfg, Scores(sigmoid, cfg, x, weight), r.value)
  {
    hide Selected, MaskedGroups, ExpertItems, TopOf, Weights, Ids, Keep, Enabled, NonNegative, Weighed, Scores;
    if !cfg.Valid() || cfg.nExperts > MAX_MASK_EXPERTS {
      return None;
    }
    var scores := ScoreExperts(sigmoid, cfg, x, weight);
    var s, per := scores[..], cfg.Per();
    var enabled := CountEnabledLoop(off, cfg.nExperts);
    if enabled < cfg.topK {
      return None;
    }
    var gbest := SelectMaskedGroups(s, bias, off, per, cfg.nGroup, cfg.topkGroup);
    GroupIds(s, bias, off, per, cfg.nGroup);
    var kept := MarkKept(gbest, cfg.nGroup, true, MaskedGroups(s, bias, off, per, cfg.nGroup));
    var ebest := SelectExperts(s, bias, kept[..], per, off, cfg.nExperts, cfg.topK);
    FullSelection(ebest, cfg, s, bias, kept[..], off);
    var ids := TakeIds(ebest);
    PickedIds(cfg, s, bias, kept[..], off);
    var weights := WeighRoutes(cfg, s, ids[..]);
    return Some(Routes(ids[..], weights[..]));
  }
}
