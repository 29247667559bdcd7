/** The grouped top-k router, its copy with disabled experts, and how the two relate. */
module Router {
  import opened Wrappers
  import opened Indexing
  import opened Lists
  import opened TopK
  import opened Vectors

  const MAX_MASK_EXPERTS := 256
  const TINY: real := 0.00000000000000000001

  datatype Config = Config(hidden: int, nExperts: int, topK: int, nGroup: int, topkGroup: int, normalize: bool,
                           scale: real)
  {
    predicate Valid() {
      hidden > 0 && nExperts > 0 && 0 < topK <= nExperts && nGroup > 0 && nExperts % nGroup == 0 &&
      0 < topkGroup <= nGroup
    }

    function Per(): (per: int)
      requires Valid()
      ensures per > 0 && per * nGroup == nExperts
    {
      nExperts / nGroup
    }
  }

  datatype Routes = Routes(ids: seq<int>, weights: Vec)

  function Flag(flags: seq<bool>, i: int): bool { 0 <= i < |flags| && flags[i] }

  function Choose(scores: Vec, bias: Vec, e: nat): real { At(scores, e) + At(bias, e) }

  // ---------------------------------------------------------------- group scores

  datatype Pair = Pair(first: Ext, second: Ext, count: nat)

  /** The two largest choice scores among the enabled experts `begin .. begin + n`, and how many there are. */
  function TopTwo(scores: Vec, bias: Vec, off: seq<bool>, begin: nat, n: nat): Pair {
    if n == 0 then Pair(NegInf, NegInf, 0)
    else
      var p, e := TopTwo(scores, bias, off, begin, n - 1), begin + n - 1;
      if Flag(off, e) then p else NextPair(p, Fin(Choose(scores, bias, e)))
  }

  function NextPair(p: Pair, v: Ext): Pair {
    if Above(v, p.first) then Pair(v, p.first, p.count + 1)
    else if Above(v, p.second) then Pair(p.first, v, p.count + 1)
    else Pair(p.first, p.second, p.count + 1)
  }

  function Plus(a: Ext, b: Ext): Ext { if a.Fin? && b.Fin? then Fin(a.value + b.value) else NegInf }

  function GroupScore(scores: Vec, bias: Vec, per: nat, g: nat): Ext {
    var p := TopTwo(scores, bias, [], g * per, per);
    Plus(p.first, if per == 1 then Fin(0.0) else p.second)
  }

  function MaskedScore(scores: Vec, bias: Vec, off: seq<bool>, per: nat, g: nat): Ext {
    var p := TopTwo(scores, bias, off, g * per, per);
    if p.count == 0 then NegInf else if p.count == 1 then p.first else Plus(p.first, p.second)
  }

  /** `e` is an enabled expert of the group with choice score `v`. */
  ghost predicate Scored(scores: Vec, bias: Vec, off: seq<bool>, begin: nat, n: nat, e: nat, v: Ext) {
    begin <= e < begin + n && !Flag(off, e) && v == Fin(Choose(scores, bias, e))
  }

  /** `p` holds the score of `a`, the largest, and the score of `b`, the largest without `a`. */
  ghost predicate TwoLargest(scores: Vec, bias: Vec, off: seq<bool>, begin: nat, n: nat, p: Pair, a: nat, b: nat) {
    (p.first.Fin? ==> Scored(scores, bias, off, begin, n, a, p.first)) &&
    (p.second.Fin? ==> Scored(scores, bias, off, begin, n, b, p.second) && a != b) &&
    (forall e: nat, v | Scored(scores, bias, off, begin, n, e, v) :: !Above(v, p.first)) &&
    (forall e: nat, v | Scored(scores, bias, off, begin, n, e, v) && e != a :: !Above(v, p.second))
  }

  lemma {:induction false} TopTwoWitness(scores: Vec, bias: Vec, off: seq<bool>, begin: nat, n: nat)
      returns (a: nat, b: nat)
    ensures TwoLargest(scores, bias, off, begin, n, TopTwo(scores, bias, off, begin, n), a, b)
    ensures var p := TopTwo(scores, bias, off, begin, n);
            (p.count >= 1 <==> p.first.Fin?) && (p.count >= 2 <==> p.second.Fin?) && !Above(p.second, p.first)
  {
    a, b := 0, 0;
    if n > 0 {
      var e := begin + n - 1;
      var p, v := TopTwo(scores, bias, off, begin, n - 1), Fin(Choose(scores, bias, e));
      a, b := TopTwoWitness(scores, bias, off, begin, n - 1);
      hide Choose, Flag, TopTwo;
      assert forall x: nat, u :: Scored(scores, bias, off, begin, n, x, u) <==>
        Scored(scores, bias, off, begin, n - 1, x, u) || (x == e && !Flag(off, e) && u == v);
      if !Flag(off, e) {
        if Above(v, p.first) {
          a, b := e, a;
        } else if Above(v, p.second) {
          b := e;
        }
      }
    }
  }

  /** The pair really holds the two largest scores of the group. */
  lemma TopTwoMeaning(scores: Vec, bias: Vec, off: seq<bool>, begin: nat, n: nat)
    ensures exists a: nat, b: nat :: TwoLargest(scores, bias, off, begin, n, TopTwo(scores, bias, off, begin, n), a, b)
    ensures var p := TopTwo(scores, bias, off, begin, n);
            (p.count >= 1 <==> p.first.Fin?) && (p.count >= 2 <==> p.second.Fin?) && !Above(p.second, p.first)
  {
    var a, b := TopTwoWitness(scores, bias, off, begin, n);
  }

  function GroupItems(scores: Vec, bias: Vec, per: nat, n: nat): seq<Choice> {
    if n == 0 then [] else GroupItems(scores, bias, per, n - 1) + [Choice(GroupScore(scores, bias, per, n - 1), n - 1)]
  }

  function MaskedGroups(scores: Vec, bias: Vec, off: seq<bool>, per: nat, n: nat): seq<Choice> {
    if n == 0 then []
    else MaskedGroups(scores, bias, off, per, n - 1) + [Choice(MaskedScore(scores, bias, off, per, n - 1), n - 1)]
  }

  /** Which groups are kept; the masked router leaves out groups with no enabled expert. */
  function Keep(best: seq<Choice>, n: nat, finiteOnly: bool): seq<bool> {
    seq(n, g requires 0 <= g => exists i | 0 <= i < |best| :: best[i].id == g && (finiteOnly ==> best[i].score.Fin?))
  }

  // ---------------------------------------------------------------- expert choice

  /** Scores outside the kept groups are masked to zero, not to minus infinity. */
  function ItemOf(scores: Vec, bias: Vec, kept: seq<bool>, per: nat, e: nat): Choice
    requires per > 0
  {
    Choice(Fin(if Flag(kept, e / per) then Choose(scores, bias, e) else 0.0), e)
  }

  function ExpertItems(scores: Vec, bias: Vec, kept: seq<bool>, per: nat, off: seq<bool>, n: nat): seq<Choice>
    requires per > 0
  {
    if n == 0 then []
    else
      ExpertItems(scores, bias, kept, per, off, n - 1) +
      if Flag(off, n - 1) then [] else [ItemOf(scores, bias, kept, per, n - 1)]
  }

  function Ids(best: seq<Choice>): seq<int> { seq(|best|, i requires 0 <= i < |best| => best[i].id) }

  function Raw(scores: Vec, ids: seq<int>): Vec {
    seq(|ids|, i requires 0 <= i < |ids| => if ids[i] >= 0 then At(scores, ids[i]) else 0.0)
  }

  function Weights(cfg: Config, scores: Vec, ids: seq<int>): Vec {
    var raw := Raw(scores, ids);
    var denom := Total(raw, |raw|) + TINY;
    seq(|ids|, i requires 0 <= i < |ids| =>
      if cfg.topK > 1 && cfg.normalize then Mul(Div(raw[i], denom), cfg.scale) else Mul(raw[i], cfg.scale))
  }

  function Pick(cfg: Config, scores: Vec, bias: Vec, kept: seq<bool>, off: seq<bool>): seq<Choice>
    requires cfg.Valid()
  {
    TopOf(ExpertItems(scores, bias, kept, cfg.Per(), off, cfg.nExperts), cfg.topK)
  }

  function KeptGroups(cfg: Config, scores: Vec, bias: Vec): seq<bool>
    requires cfg.Valid()
  {
    Keep(TopOf(GroupItems(scores, bias, cfg.Per(), cfg.nGroup), cfg.topkGroup), cfg.nGroup, false)
  }

  function MaskedKept(cfg: Config, scores: Vec, bias: Vec, off: seq<bool>): seq<bool>
    requires cfg.Valid()
  {
    Keep(TopOf(MaskedGroups(scores, bias, off, cfg.Per(), cfg.nGroup), cfg.topkGroup), cfg.nGroup, true)
  }

  function Enabled(off: seq<bool>, n: nat): nat {
    if n == 0 then 0 else Enabled(off, n - 1) + if Flag(off, n - 1) then 0 else 1
  }

  /** `kvl_router_noaux_tc`, from the sigmoid scores on. */
  function Route(cfg: Config, scores: Vec, bias: Vec): Option<Routes> {
    if !cfg.Valid() then None
    else
      var ids := Ids(Pick(cfg, scores, bias, KeptGroups(cfg, scores, bias), []));
      Some(Routes(ids, Weights(cfg, scores, ids)))
  }

  /** `q8_router_for_layer` with a mask, from the sigmoid scores on. */
  function RouteMasked(cfg: Config, scores: Vec, bias: Vec, off: seq<bool>): Option<Routes> {
    if !cfg.Valid() || cfg.nExperts > MAX_MASK_EXPERTS || Enabled(off, cfg.nExperts) < cfg.topK then None
    else
      var ids := Ids(Pick(cfg, scores, bias, MaskedKept(cfg, scores, bias, off), off));
      Some(Routes(ids, Weights(cfg, scores, ids)))
  }

  // ---------------------------------------------------------------- what is selected

  lemma {:induction false} ItemsAre(scores: Vec, bias: Vec, kept: seq<bool>, per: nat, off: seq<bool>, n: nat)
    requires per > 0
    ensures var items := ExpertItems(scores, bias, kept, per, off, n);
            DistinctIds(items) && |items| == Enabled(off, n) &&
            (forall c | c in items ::
               0 <= c.id < n && !Flag(off, c.id) && c == ItemOf(scores, bias, kept, per, c.id)) &&
            (forall e: nat | e < n && !Flag(off, e) :: ItemOf(scores, bias, kept, per, e) in items)
  {
    if n > 0 {
      ItemsAre(scores, bias, kept, per, off, n - 1);
      hide ItemOf, Flag;
      var before, items := ExpertItems(scores, bias, kept, per, off, n - 1),
        ExpertItems(scores, bias, kept, per, off, n);
      forall i | 0 <= i < |before|
        ensures before[i].id < n - 1
      {
        assert before[i] in before;
      }
    }
  }

  lemma {:induction false} TopOfLength(items: seq<Choice>, k: nat)
    ensures |TopOf(items, k)| == if |items| <= k then |items| else k
    decreases |items|
  {
    if |items| > 0 {
      TopOfLength(items[..|items| - 1], k);
    }
  }

  /** Every id the masked router returns is an enabled expert; there are `topK` of them, all different. */
  lemma MaskedIdsEnabled(cfg: Config, scores: Vec, bias: Vec, off: seq<bool>)
    requires RouteMasked(cfg, scores, bias, off).Some?
    ensures var ids := RouteMasked(cfg, scores, bias, off).value.ids;
            |ids| == cfg.topK && Distinct(ids) &&
            forall i | 0 <= i < |ids| :: 0 <= ids[i] < cfg.nExperts && !Flag(off, ids[i])
  {
    PickedIds(cfg, scores, bias, MaskedKept(cfg, scores, bias, off), off);
  }

  lemma PickedIds(cfg: Config, scores: Vec, bias: Vec, kept: seq<bool>, off: seq<bool>)
    requires cfg.Valid() && Enabled(off, cfg.nExperts) >= cfg.topK
    ensures var ids := Ids(Pick(cfg, scores, bias, kept, off));
            |ids| == cfg.topK && Distinct(ids) &&
            forall i | 0 <= i < |ids| :: 0 <= ids[i] < cfg.nExperts && !Flag(off, ids[i])
  {
    var items := ExpertItems(scores, bias, kept, cfg.Per(), off, cfg.nExperts);
    var best := Pick(cfg, scores, bias, kept, off);
    ItemsAre(scores, bias, kept, cfg.Per(), off, cfg.nExperts);
    TopOfIsTop(items, cfg.topK);
    TopOfLength(items, cfg.topK);
    hide ExpertItems, TopOf, ItemOf, Flag, Enabled;
    forall i, j | 0 <= i < j < |best|
      ensures best[i].id != best[j].id
    {
      assert best[i] in items && best[j] in items;
      var a :| 0 <= a < |items| && items[a] == best[i];
      var b :| 0 <= b < |items| && items[b] == best[j];
      assert a != b;
      assert a < b || b < a;
    }
    forall i | 0 <= i < |best|
      ensures 0 <= best[i].id < cfg.nExperts && !Flag(off, best[i].id)
    {
      assert best[i] in best;
    }
  }

  // ---------------------------------------------------------------- the two routers

  lemma AllEnabled(off: seq<bool>, n: nat)
    requires forall e | 0 <= e < n :: !Flag(off, e)
    ensures Enabled(off, n) == n
  {
  }

  lemma {:induction false} TopTwoSame(scores: Vec, bias: Vec, off: seq<bool>, begin: nat, n: nat)
    requires forall e | begin <= e < begin + n :: !Flag(off, e)
    ensures TopTwo(scores, bias, off, begin, n) == TopTwo(scores, bias, [], begin, n)
    ensures TopTwo(scores, bias, off, begin, n).count == n
  {
    if n > 0 {
      TopTwoSame(scores, bias, off, begin, n - 1);
    }
  }

  lemma {:induction false} GroupsSame(scores: Vec, bias: Vec, off: seq<bool>, per: nat, n: nat, experts: nat)
    requires per > 0 && n * per <= experts && forall e | 0 <= e < experts :: !Flag(off, e)
    ensures MaskedGroups(scores, bias, off, per, n) == GroupItems(scores, bias, per, n)
    ensures forall c | c in GroupItems(scores, bias, per, n) :: c.score.Fin?
  {
    if n > 0 {
      assert (n - 1) * per + per == n * per;
      GroupsSame(scores, bias, off, per, n - 1, experts);
      TopTwoSame(scores, bias, off, (n - 1) * per, per);
      TopTwoMeaning(scores, bias, off, (n - 1) * per, per);
      hide TopTwo, Flag;
    }
  }

  lemma {:induction false} TopOfIn(items: seq<Choice>, k: nat)
    ensures forall c | c in TopOf(items, k) :: c in items
    decreases |items|
  {
    if |items| > 0 {
      var init, last := items[..|items| - 1], items[|items| - 1];
      TopOfIn(init, k);
      LongerMembers(TopOf(init, k), last);
      hide Longer;
      assert forall c | c in Insert(TopOf(init, k), last, k) :: c in Longer(TopOf(init, k), last);
    }
  }

  lemma {:induction false} ItemsSame(scores: Vec, bias: Vec, kept: seq<bool>, per: nat, off: seq<bool>, n: nat)
    requires per > 0 && forall e | 0 <= e < n :: !Flag(off, e)
    ensures ExpertItems(scores, bias, kept, per, off, n) == ExpertItems(scores, bias, kept, per, [], n)
  {
    if n > 0 {
      ItemsSame(scores, bias, kept, per, off, n - 1);
    }
  }

  /** With nothing disabled both routers keep the same groups. */
  lemma KeptSame(cfg: Config, scores: Vec, bias: Vec, off: seq<bool>)
    requires cfg.Valid() && forall e | 0 <= e < cfg.nExperts :: !Flag(off, e)
    ensures KeptGroups(cfg, scores, bias) == MaskedKept(cfg, scores, bias, off)
  {
    var groups := GroupItems(scores, bias, cfg.Per(), cfg.nGroup);
    GroupsSame(scores, bias, off, cfg.Per(), cfg.nGroup, cfg.nExperts);
    TopOfIn(groups, cfg.topkGroup);
    hide TopOf, GroupItems, MaskedGroups;
  }

  /** With nothing disabled the masked copy is the production router. */
  lemma NothingDisabled(cfg: Config, scores: Vec, bias: Vec, off: seq<bool>)
    requires cfg.nExperts <= MAX_MASK_EXPERTS && forall e | 0 <= e < cfg.nExperts :: !Flag(off, e)
    ensures RouteMasked(cfg, scores, bias, off) == Route(cfg, scores, bias)
  {
    if cfg.Valid() {
      AllEnabled(off, cfg.nExperts);
      KeptSame(cfg, scores, bias, off);
      hide TopOf, KeptGroups, MaskedKept;
      ItemsSame(scores, bias, KeptGroups(cfg, scores, bias), cfg.Per(), off, cfg.nExperts);
    }
  }

  // ---------------------------------------------------------------- one group

  lemma {:induction false} CountEnabled(scores: Vec, bias: Vec, off: seq<bool>, n: nat)
    ensures TopTwo(scores, bias, off, 0, n).count == Enabled(off, n)
  {
    if n > 0 {
      CountEnabled(scores, bias, off, n - 1);
    }
  }

  lemma OnlyGroupKept(cfg: Config, scores: Vec, bias: Vec, off: seq<bool>)
    requires cfg.Valid() && cfg.nGroup == 1 && Enabled(off, cfg.nExperts) > 0
    ensures Flag(KeptGroups(cfg, scores, bias), 0) && Flag(MaskedKept(cfg, scores, bias, off), 0)
  {
    var per := cfg.Per();
    CountEnabled(scores, bias, off, per);
    var a, b := TopTwoWitness(scores, bias, off, 0, per);
    OneItem(Choice(GroupScore(scores, bias, per, 0), 0));
    OneItem(Choice(MaskedScore(scores, bias, off, per, 0), 0));
    assert GroupItems(scores, bias, per, 1) == [Choice(GroupScore(scores, bias, per, 0), 0)];
    assert MaskedGroups(scores, bias, off, per, 1) == [Choice(MaskedScore(scores, bias, off, per, 0), 0)];
  }

  lemma OneItem(c: Choice)
    ensures TopOf([c], 1) == [c]
  {
    assert [c][..0] == [] && TopOf([], 1) == [];
    assert Pos([], c) == 0 && Longer([], c) == [c];
  }

  /** With a single group, disabling experts the production router did not select changes neither ids nor weights. */
  lemma OneGroupMask(cfg: Config, scores: Vec, bias: Vec, off: seq<bool>)
    requires cfg.Valid() && cfg.nGroup == 1 && cfg.nExperts <= MAX_MASK_EXPERTS
    requires forall i | 0 <= i < |Route(cfg, scores, bias).value.ids| ::
      !Flag(off, Route(cfg, scores, bias).value.ids[i])
    ensures RouteMasked(cfg, scores, bias, off) == Route(cfg, scores, bias)
  {
    var per, kept, E := cfg.Per(), KeptGroups(cfg, scores, bias), cfg.nExperts;
    var items := ExpertItems(scores, bias, kept, per, [], E);
    var fewer := ExpertItems(scores, bias, kept, per, off, E);
    var best := Pick(cfg, scores, bias, kept, []);
    ItemsAre(scores, bias, kept, per, [], E);
    ItemsAre(scores, bias, kept, per, off, E);
    AllEnabled([], E);
    PickedIds(cfg, scores, bias, kept, []);
    TopOfIsTop(items, cfg.topK);
    hide ExpertItems, TopOf, ItemOf, Choose, Weights;
    forall c | c in best
      ensures c in fewer
    {
      var i :| 0 <= i < |best| && best[i] == c;
      assert Route(cfg, scores, bias).value.ids[i] == c.id;
    }
    DistinctCard(best, Set(fewer));
    CoverCard(fewer, Set(fewer));
    OnlyGroupKept(cfg, scores, bias, off);
    SameKept(cfg, scores, bias, kept, MaskedKept(cfg, scores, bias, off), off, E);
    forall c | c in fewer
      ensures c in items
    {
    }
    TopOfFewer(items, fewer, cfg.topK);
  }

  lemma SameItem(scores: Vec, bias: Vec, kept: seq<bool>, kept': seq<bool>, per: nat, e: nat)
    requires e < per && Flag(kept, 0) && Flag(kept', 0)
    ensures ItemOf(scores, bias, kept', per, e) == ItemOf(scores, bias, kept, per, e)
  {
    DivModOf(0, e, per);
  }

  lemma {:induction false} SameKept(cfg: Config, scores: Vec, bias: Vec, kept: seq<bool>, kept': seq<bool>,
                                    off: seq<bool>, n: nat)
    requires cfg.Valid() && n <= cfg.Per() && Flag(kept, 0) && Flag(kept', 0)
    ensures ExpertItems(scores, bias, kept', cfg.Per(), off, n) == ExpertItems(scores, bias, kept, cfg.Per(), off, n)
  {
    if n > 0 {
      SameKept(cfg, scores, bias, kept, kept', off, n - 1);
      SameItem(scores, bias, kept, kept', cfg.Per(), n - 1);
      hide ItemOf, Flag;
    }
  }

  // ---------------------------------------------------------------- experts outside the kept groups

  predicate Outside(cfg: Config, scores: Vec, bias: Vec, e: int)
    requires cfg.Valid()
  {
    0 <= e < cfg.nExperts && !Flag(KeptGroups(cfg, scores, bias), e / cfg.Per())
  }

  /** The kept experts that come before the first outside expert, whose masked score is zero. */
  function Ahead(cfg: Config, scores: Vec, bias: Vec, first: nat, n: nat): set<int>
    requires cfg.Valid()
  {
    if n == 0 then {}
    else
      var v, e := Choose(scores, bias, n - 1), n - 1;
      Ahead(cfg, scores, bias, first, n - 1) +
      if !Outside(cfg, scores, bias, e) && (v > 0.0 || (v == 0.0 && e < first)) then {e} else {}
  }

  function IdSet(items: set<Choice>): set<int> { set c | c in items :: c.id }

  lemma {:induction false} IdSetCard(items: set<Choice>)
    requires forall c, d | c in items && d in items && c != d :: c.id != d.id
    ensures |IdSet(items)| == |items|
    decreases |items|
  {
    if c :| c in items {
      IdSetCard(items - {c});
      assert IdSet(items) == IdSet(items - {c}) + {c.id};
      assert c.id !in IdSet(items - {c});
    } else {
      assert items == {};
    }
  }

  lemma {:induction false} AheadAre(cfg: Config, scores: Vec, bias: Vec, first: nat, n: nat)
    requires cfg.Valid()
    ensures forall e :: e in Ahead(cfg, scores, bias, first, n) <==>
                        0 <= e < n && !Outside(cfg, scores, bias, e) &&
                        (Choose(scores, bias, e) > 0.0 || (Choose(scores, bias, e) == 0.0 && e < first))
  {
    if n > 0 {
      AheadAre(cfg, scores, bias, first, n - 1);
      hide Outside, Choose;
    }
  }

  function RoutedItems(cfg: Config, scores: Vec, bias: Vec): seq<Choice>
    requires cfg.Valid()
  {
    ExpertItems(scores, bias, KeptGroups(cfg, scores, bias), cfg.Per(), [], cfg.nExperts)
  }

  function Masked(cfg: Config, scores: Vec, bias: Vec, e: nat): Choice
    requires cfg.Valid()
  {
    Choice(Fin(if Outside(cfg, scores, bias, e) then 0.0 else Choose(scores, bias, e)), e)
  }

  lemma RoutedItemsAre(cfg: Config, scores: Vec, bias: Vec)
    requires cfg.Valid()
    ensures var items := RoutedItems(cfg, scores, bias);
            DistinctIds(items) &&
            (forall c | c in items :: 0 <= c.id < cfg.nExperts && c == Masked(cfg, scores, bias, c.id)) &&
            (forall e: nat | e < cfg.nExperts :: Masked(cfg, scores, bias, e) in items)
  {
    var items, kept, per := RoutedItems(cfg, scores, bias), KeptGroups(cfg, scores, bias), cfg.Per();
    ItemsAre(scores, bias, kept, per, [], cfg.nExperts);
    hide KeptGroups, Choose, ExpertItems;
    forall e: nat | e < cfg.nExperts
      ensures Masked(cfg, scores, bias, e) == ItemOf(scores, bias, kept, per, e) &&
        Masked(cfg, scores, bias, e) in items
    {
    }
  }

  lemma BettersAreAhead(cfg: Config, scores: Vec, bias: Vec, first: nat)
    requires cfg.Valid() && Outside(cfg, scores, bias, first) &&
      forall e | 0 <= e < first :: !Outside(cfg, scores, bias, e)
    ensures |Betters(RoutedItems(cfg, scores, bias), Choice(Fin(0.0), first))| ==
      |Ahead(cfg, scores, bias, first, cfg.nExperts)|
  {
    hide Outside, RoutedItems, Ahead, Choose;
    var items, ahead := RoutedItems(cfg, scores, bias), Ahead(cfg, scores, bias, first, cfg.nExperts);
    var better := Betters(items, Choice(Fin(0.0), first));
    RoutedItemsAre(cfg, scores, bias);
    AheadAre(cfg, scores, bias, first, cfg.nExperts);
    forall e
      ensures e in IdSet(better) <==> e in ahead
    {
      if e in ahead {
        assert Masked(cfg, scores, bias, e) in better;
      }
    }
    IdSetCard(better);
    assert IdSet(better) == ahead;
  }

  lemma RoutedIds(cfg: Config, scores: Vec, bias: Vec)
    requires cfg.Valid()
    ensures Route(cfg, scores, bias).Some?
    ensures Route(cfg, scores, bias).value.ids == Ids(TopOf(RoutedItems(cfg, scores, bias), cfg.topK))
  {
  }

  /** An expert outside the kept groups is selected exactly when fewer than `topK` kept experts have a positive choice
      score, or a zero one and a smaller id than the first outside expert. */
  lemma OutsidePickedIff(cfg: Config, scores: Vec, bias: Vec, first: nat)
    requires cfg.Valid() && Outside(cfg, scores, bias, first) &&
      forall e | 0 <= e < first :: !Outside(cfg, scores, bias, e)
    ensures (exists e :: e in Route(cfg, scores, bias).value.ids && Outside(cfg, scores, bias, e)) <==>
            |Ahead(cfg, scores, bias, first, cfg.nExperts)| < cfg.topK
  {
    RoutedIds(cfg, scores, bias);
    InRange(cfg, scores, bias, first);
    hide Outside, RoutedItems, Ahead, Choose, TopOf, Betters, Route;
    var items := RoutedItems(cfg, scores, bias);
    var best, x, ids := TopOf(items, cfg.topK), Choice(Fin(0.0), first), Route(cfg, scores, bias).value.ids;
    RoutedItemsAre(cfg, scores, bias);
    assert x == Masked(cfg, scores, bias, first);
    SelectedIff(items, cfg.topK, x);
    BettersAreAhead(cfg, scores, bias, first);
    var out := set e | e in Upto(cfg.nExperts) && Outside(cfg, scores, bias, e);
    forall c | c in items && c.id in out
      ensures c.score == Fin(0.0) && c.id >= first
    {
      assert c == Masked(cfg, scores, bias, c.id);
    }
    FirstOfEquals(items, cfg.topK, x, out);
    hide Better, DistinctIds;
    IdsMeaning(best);
    assert forall e | e in ids :: Outside(cfg, scores, bias, e) <==> e in out by {
      TopOfIn(items, cfg.topK);
    }
  }

  lemma IdsMeaning(best: seq<Choice>)
    ensures forall e :: e in Ids(best) <==> exists c :: c in best && c.id == e
  {
    forall e
      ensures e in Ids(best) <==> exists c :: c in best && c.id == e
    {
      if c :| c in best && c.id == e {
        var i :| 0 <= i < |best| && best[i] == c;
        assert Ids(best)[i] == e;
      }
      if e in Ids(best) {
        var i :| 0 <= i < |best| && Ids(best)[i] == e;
        assert best[i] in best;
      }
    }
  }

  /** Among items with one score, the one with the smallest id is selected whenever any is. */
  lemma FirstOfEquals(items: seq<Choice>, k: nat, x: Choice, out: set<int>)
    requires DistinctIds(items) && x in items && x.id in out
    requires forall c | c in items && c.id in out :: c.score == x.score && c.id >= x.id
    ensures x in TopOf(items, k) <==> exists c :: c in TopOf(items, k) && c.id in out
  {
    hide TopOf;
    TopOfIn(items, k);
    if c :| c in TopOf(items, k) && c.id in out {
      var i :| 0 <= i < |items| && items[i] == c;
      var j :| 0 <= j < |items| && items[j] == x;
      if i != j {
        TopClosed(items, k, c, x);
      }
    }
  }

  /** Whatever is better than a selected item is selected. */
  lemma TopClosed(items: seq<Choice>, k: nat, c: Choice, x: Choice)
    requires DistinctIds(items) && c in TopOf(items, k) && x in items && Better(x, c)
    ensures x in TopOf(items, k)
  {
    TopOfIsTop(items, k);
  }

  lemma InRange(cfg: Config, scores: Vec, bias: Vec, e: nat)
    requires cfg.Valid() && Outside(cfg, scores, bias, e)
    ensures e < cfg.nExperts
  {
  }

  const EXAMPLE: Config := Config(1, 4, 2, 2, 1, false, 1.0)
  const EXAMPLE_SCORES: Vec := [0.5, 0.5, 0.4, 0.4]
  const EXAMPLE_BIAS: Vec := [-1.0, -1.0, -1.0, -1.0]

  lemma ExampleGroups()
    ensures GroupItems(EXAMPLE_SCORES, EXAMPLE_BIAS, 2, 2) == [Choice(Fin(-1.0), 0), Choice(Fin(-1.2), 1)]
  {
    ExampleGroup(EXAMPLE_SCORES, EXAMPLE_BIAS, 0);
    ExampleGroup(EXAMPLE_SCORES, EXAMPLE_BIAS, 1);
    hide GroupScore;
    assert GroupItems(EXAMPLE_SCORES, EXAMPLE_BIAS, 2, 1) == [Choice(Fin(-1.0), 0)];
  }

  lemma ExampleKept()
    ensures EXAMPLE.Valid() && EXAMPLE.Per() == 2 && KeptGroups(EXAMPLE, EXAMPLE_SCORES, EXAMPLE_BIAS) == [true, false]
  {
    hide GroupItems;
    ExampleGroups();
    var a, b := Choice(Fin(-1.0), 0), Choice(Fin(-1.2), 1);
    FirstOfTwo(a, b);
    hide TopOf;
    assert KeptGroups(EXAMPLE, EXAMPLE_SCORES, EXAMPLE_BIAS) == Keep([a], 2, false);
  }

  /** It does happen: all choice scores negative, and a masked zero wins. */
  lemma OutsideExample()
    ensures Route(EXAMPLE, EXAMPLE_SCORES, EXAMPLE_BIAS).Some?
    ensures var ids := Route(EXAMPLE, EXAMPLE_SCORES, EXAMPLE_BIAS).value.ids;
            exists e :: e in ids && Outside(EXAMPLE, EXAMPLE_SCORES, EXAMPLE_BIAS, e)
  {
    hide KeptGroups, Route, Ahead, Outside, Choose;
    ExampleOutside();
    RoutedIds(EXAMPLE, EXAMPLE_SCORES, EXAMPLE_BIAS);
    OutsidePickedIff(EXAMPLE, EXAMPLE_SCORES, EXAMPLE_BIAS, 2);
    AheadAre(EXAMPLE, EXAMPLE_SCORES, EXAMPLE_BIAS, 2, 4);
    var ahead := Ahead(EXAMPLE, EXAMPLE_SCORES, EXAMPLE_BIAS, 2, 4);
    forall e | e in ahead
      ensures false
    {
    }
    assert ahead == {};
  }

  lemma ExampleOutside()
    ensures EXAMPLE.Valid() && Outside(EXAMPLE, EXAMPLE_SCORES, EXAMPLE_BIAS, 2)
    ensures !Outside(EXAMPLE, EXAMPLE_SCORES, EXAMPLE_BIAS, 0) && !Outside(EXAMPLE, EXAMPLE_SCORES, EXAMPLE_BIAS, 1)
    ensures forall e: nat | e < 4 :: Choose(EXAMPLE_SCORES, EXAMPLE_BIAS, e) < 0.0
  {
    hide KeptGroups;
    ExampleKept();
  }

  lemma ExampleGroup(scores: Vec, bias: Vec, g: nat)
    requires |scores| == |bias| == 4 && g <= 1
    requires Choose(scores, bias, 2 * g) == Choose(scores, bias, 2 * g + 1)
    ensures GroupScore(scores, bias, 2, g) == Fin(2.0 * Choose(scores, bias, 2 * g))
  {
    var v := Fin(Choose(scores, bias, 2 * g));
    hide Choose;
    assert g * 2 == 2 * g;
    assert TopTwo(scores, bias, [], 2 * g, 1) == Pair(v, NegInf, 1);
    assert TopTwo(scores, bias, [], 2 * g, 2) == Pair(v, v, 2);
  }

  lemma FirstOfTwo(a: Choice, b: Choice)
    requires Better(a, b)
    ensures TopOf([a, b], 1) == [a]
  {
    OneItem(a);
    assert [a, b][..1] == [a];
    assert Pos([a], b) == 1 && Longer([a], b) == [a, b];
  }
}
