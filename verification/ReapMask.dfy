/** The greedy pruning mask under nested caps: at most so many disabled experts per layer, and per router group of a
    layer.  Masks are sets of row indices into the ranked list. */
module ReapMask {
  import opened Wrappers
  import opened Indexing
  import opened Lists

  /** One ranked expert: its score and the tie breakers of the ranking. */
  datatype Row = Row(score: real, support: nat, selected: nat, layer: nat, expert: nat)

  type Size = n: int | n > 0 witness 1

  datatype Caps = Caps(perLayer: int, perGroup: int, groupSize: Size)

  /** The ranking: by score, then support, then selections, then layer, then expert. */
  predicate Ranked(a: Row, b: Row) {
    a.score < b.score ||
    (a.score == b.score && (a.support < b.support ||
    (a.support == b.support && (a.selected < b.selected ||
    (a.selected == b.selected && (a.layer < b.layer || (a.layer == b.layer && a.expert <= b.expert)))))))
  }

  predicate Sorted(rows: seq<Row>) { forall i, j | 0 <= i < j < |rows| :: Ranked(rows[i], rows[j]) }

  /** The group the loop counts a row in. */
  function GroupOf(r: Row, caps: Caps): int { r.expert / caps.groupSize }

  /** Group `g` is the run of `groupSize` experts from `g * groupSize` on. */
  predicate Spans(caps: Caps, g: int, expert: nat) { g * caps.groupSize <= expert < (g + 1) * caps.groupSize }

  /** The quotient of the loop is the one group that spans the expert. */
  lemma SpanIff(caps: Caps, g: int, r: Row)
    ensures Spans(caps, g, r.expert) <==> GroupOf(r, caps) == g
  {
    var size := caps.groupSize;
    assert (g + 1) * size == g * size + size;
    QuotientIff(r.expert, g, size);
  }

  function InLayer(rows: seq<Row>, s: set<int>, layer: nat): set<int> {
    set i | i in s && 0 <= i < |rows| && rows[i].layer == layer
  }

  function InGroup(rows: seq<Row>, caps: Caps, s: set<int>, layer: nat, group: int): set<int> {
    set i | i in s && 0 <= i < |rows| && rows[i].layer == layer && Spans(caps, group, rows[i].expert)
  }

  /** A mask that respects both caps. */
  ghost predicate Obeys(rows: seq<Row>, caps: Caps, s: set<int>) {
    (forall i | i in s :: 0 <= i < |rows|) &&
    (forall l :: |InLayer(rows, s, l)| <= caps.perLayer) &&
    (forall l, g :: |InGroup(rows, caps, s, l, g)| <= caps.perGroup)
  }

  // ---------------------------------------------------------------- the greedy choice

  predicate Blocked(rows: seq<Row>, caps: Caps, s: set<int>, i: nat)
    requires i < |rows|
  {
    |InLayer(rows, s, rows[i].layer)| >= caps.perLayer ||
    |InGroup(rows, caps, s, rows[i].layer, GroupOf(rows[i], caps))| >= caps.perGroup
  }

  /** The rows chosen among the first `m`, without a target. */
  function Greedy(rows: seq<Row>, caps: Caps, m: nat): (chosen: seq<int>)
    requires m <= |rows|
    ensures |chosen| <= m && forall i | i in chosen :: 0 <= i < m
  {
    if m == 0 then []
    else
      var before := Greedy(rows, caps, m - 1);
      if Blocked(rows, caps, Members(before), m - 1) then before else before + [m - 1]
  }

  // ---------------------------------------------------------------- counting by class

  function Class(s: set<int>, labels: seq<int>, c: int): set<int> {
    set i | i in s && 0 <= i < |labels| && labels[i] == c
  }

  /** If no class of `a` is larger than that of `b`, then neither is `a`. */
  lemma {:induction false} ClassesDominate(a: set<int>, b: set<int>, labels: seq<int>)
    requires (forall i | i in a :: 0 <= i < |labels|) && forall c :: |Class(a, labels, c)| <= |Class(b, labels, c)|
    ensures |a| <= |b|
    decreases |a|
  {
    if a != {} {
      var x := SomeMember(a);
      var c := labels[x];
      var ca, cb := Class(a, labels, c), Class(b, labels, c);
      assert x in ca;
      forall d
        ensures |Class(a - ca, labels, d)| <= |Class(b - cb, labels, d)|
      {
        if d == c {
          assert Class(a - ca, labels, d) == {};
        } else {
          assert Class(a - ca, labels, d) == Class(a, labels, d);
          assert Class(b - cb, labels, d) == Class(b, labels, d);
        }
      }
      Split(a, ca);
      Split(b, cb);
      ClassesDominate(a - ca, b - cb, labels);
    }
  }

  lemma Split(s: set<int>, part: set<int>)
    requires part <= s
    ensures |s| == |s - part| + |part|
  {
    assert s == (s - part) + part;
  }

  function First(s: set<int>, m: nat): set<int> { set i | i in s && i < m }

  // ---------------------------------------------------------------- greedy dominates every obedient mask

  lemma {:induction false} GreedyObeys(rows: seq<Row>, caps: Caps, m: nat)
    requires m <= |rows| && caps.perLayer >= 0 && caps.perGroup >= 0
    ensures Obeys(rows, caps, Members(Greedy(rows, caps, m)))
  {
    var s := Members(Greedy(rows, caps, m));
    if m == 0 {
      forall l, g
        ensures InLayer(rows, s, l) == {} && InGroup(rows, caps, s, l, g) == {}
      {
      }
    } else {
      GreedyObeys(rows, caps, m - 1);
      var before := Members(Greedy(rows, caps, m - 1));
      if !Blocked(rows, caps, before, m - 1) {
        assert s == before + {m - 1};
        OneMore(rows, caps, before, m - 1);
      }
    }
  }

  lemma LayerGrows(rows: seq<Row>, s: set<int>, i: nat, l: nat)
    requires i < |rows| && i !in s
    ensures |InLayer(rows, s + {i as int}, l)| == |InLayer(rows, s, l)| + if rows[i].layer == l then 1 else 0
  {
    var a, b := InLayer(rows, s, l), InLayer(rows, s + {i as int}, l);
    if rows[i].layer == l {
      assert b == a + {i as int};
    } else {
      assert b == a;
    }
  }

  lemma GroupGrows(rows: seq<Row>, caps: Caps, s: set<int>, i: nat, l: nat, g: int)
    requires i < |rows| && i !in s
    ensures |InGroup(rows, caps, s + {i as int}, l, g)| ==
            |InGroup(rows, caps, s, l, g)| + if rows[i].layer == l && GroupOf(rows[i], caps) == g then 1 else 0
  {
    SpanIff(caps, g, rows[i]);
    hide GroupOf, Spans;
    var a, b := InGroup(rows, caps, s, l, g), InGroup(rows, caps, s + {i as int}, l, g);
    if rows[i].layer == l && GroupOf(rows[i], caps) == g {
      assert b == a + {i as int};
    } else {
      assert b == a;
    }
  }

  /** Adding a row that is not blocked keeps the caps. */
  lemma OneMore(rows: seq<Row>, caps: Caps, s: set<int>, i: nat)
    requires Obeys(rows, caps, s) && i < |rows| && i !in s && !Blocked(rows, caps, s, i)
    ensures Obeys(rows, caps, s + {i as int})
  {
    hide InLayer, InGroup, GroupOf, Spans;
    var more := s + {i as int};
    forall l
      ensures |InLayer(rows, more, l)| <= caps.perLayer
    {
      LayerGrows(rows, s, i, l);
    }
    forall l, g
      ensures |InGroup(rows, caps, more, l, g)| <= caps.perGroup
    {
      GroupGrows(rows, caps, s, i, l, g);
    }
  }

  lemma FirstStep(t: set<int>, m: nat)
    requires m > 0
    ensures First(t, m) == if m - 1 in t then First(t, m - 1) + {m - 1} else First(t, m - 1)
    ensures m - 1 !in First(t, m - 1)
  {
  }

  function Chosen(rows: seq<Row>, caps: Caps, m: nat): (r: set<int>)
    requires m <= |rows|
    ensures forall i | i in r :: 0 <= i < m
  {
    Members(Greedy(rows, caps, m))
  }

  lemma ChosenStep(rows: seq<Row>, caps: Caps, m: nat)
    requires 0 < m <= |rows|
    ensures var before := Chosen(rows, caps, m - 1);
            m - 1 !in before &&
            Chosen(rows, caps, m) == if Blocked(rows, caps, before, m - 1) then before else before + {m - 1}
  {
  }

  lemma ClassBound(rows: seq<Row>, caps: Caps, t: set<int>, m: nat, l: nat, g: int)
    ensures |InGroup(rows, caps, First(t, m), l, g)| <= |InGroup(rows, caps, t, l, g)|
    ensures |InLayer(rows, First(t, m), l)| <= |InLayer(rows, t, l)|
  {
    Subset(InGroup(rows, caps, First(t, m), l, g), InGroup(rows, caps, t, l, g));
    Subset(InLayer(rows, First(t, m), l), InLayer(rows, t, l));
  }

  lemma Subset(a: set<int>, b: set<int>)
    requires a <= b
    ensures |a| <= |b|
  {
    Split(b, a);
  }

  /** While a layer has room, each of its groups holds at least as many chosen rows as any obedient mask has there. */
  lemma {:induction false} GroupDominates(rows: seq<Row>, caps: Caps, m: nat, l: nat, g: int, t: set<int>)
    requires m <= |rows| && Obeys(rows, caps, t)
    requires |InLayer(rows, Chosen(rows, caps, m), l)| < caps.perLayer
    ensures |InGroup(rows, caps, First(t, m), l, g)| <= |InGroup(rows, caps, Chosen(rows, caps, m), l, g)|
  {
    if m == 0 {
    } else {
      var i := m - 1;
      FirstStep(t, m);
      ChosenStep(rows, caps, m);
      LayerGrows(rows, Chosen(rows, caps, i), i, l);
      GroupGrows(rows, caps, Chosen(rows, caps, i), i, l, g);
      GroupGrows(rows, caps, First(t, i), i, l, g);
      ClassBound(rows, caps, t, m, l, g);
      hide InLayer, InGroup, GroupOf, Spans, First, Chosen;
      GroupDominates(rows, caps, i, l, g, t);
    }
  }

  /** In every prefix of the ranking, a layer holds at least as many chosen rows as any obedient mask has there. */
  lemma LayerDominates(rows: seq<Row>, caps: Caps, m: nat, l: nat, t: set<int>)
    requires m <= |rows| && Obeys(rows, caps, t)
    ensures |InLayer(rows, First(t, m), l)| <= |InLayer(rows, Chosen(rows, caps, m), l)|
  {
    var chosen := Chosen(rows, caps, m);
    if |InLayer(rows, chosen, l)| >= caps.perLayer {
      ClassBound(rows, caps, t, m, l, 0);
    } else {
      hide GroupOf, Spans;
      var groups := seq(|rows|, i requires 0 <= i < |rows| => GroupOf(rows[i], caps));
      var a, b := InLayer(rows, First(t, m), l), InLayer(rows, chosen, l);
      forall g
        ensures |Class(a, groups, g)| <= |Class(b, groups, g)|
      {
        GroupDominates(rows, caps, m, l, g, t);
        GroupIsClass(rows, caps, First(t, m), l, g, groups);
        GroupIsClass(rows, caps, chosen, l, g, groups);
      }
      ClassesDominate(a, b, groups);
    }
  }

  /** The rows of a group of a layer, by the quotients of the loop. */
  lemma GroupIsClass(rows: seq<Row>, caps: Caps, s: set<int>, l: nat, g: int, groups: seq<int>)
    requires |groups| == |rows| && forall i | 0 <= i < |rows| :: groups[i] == GroupOf(rows[i], caps)
    ensures Class(InLayer(rows, s, l), groups, g) == InGroup(rows, caps, s, l, g)
  {
    hide GroupOf, Spans;
    forall i | 0 <= i < |rows|
      ensures Spans(caps, g, rows[i].expert) <==> groups[i] == g
    {
      SpanIff(caps, g, rows[i]);
    }
  }

  /** In every prefix of the ranking, greedy has chosen at least as many rows as any obedient mask. */
  lemma GreedyDominates(rows: seq<Row>, caps: Caps, m: nat, t: set<int>)
    requires m <= |rows| && Obeys(rows, caps, t)
    ensures |First(t, m)| <= |Chosen(rows, caps, m)|
  {
    var layers := seq(|rows|, i requires 0 <= i < |rows| => rows[i].layer as int);
    var a, b := First(t, m), Chosen(rows, caps, m);
    forall l
      ensures |Class(a, layers, l)| <= |Class(b, layers, l)|
    {
      if l >= 0 {
        LayerDominates(rows, caps, m, l, t);
        assert Class(a, layers, l) == InLayer(rows, a, l);
        assert Class(b, layers, l) == InLayer(rows, b, l);
      } else {
        assert Class(a, layers, l) == {};
      }
    }
    ClassesDominate(a, b, layers);
  }

  // ---------------------------------------------------------------- snapshots and their total score

  /** Total score of the rows of `s` among the first `m`. */
  function Total(rows: seq<Row>, s: set<int>, m: nat): real
    requires m <= |rows|
  {
    if m == 0 then 0.0 else Total(rows, s, m - 1) + if m - 1 in s then rows[m - 1].score else 0.0
  }

  lemma Monotone(d: real, x: real, y: real)
    requires d >= 0.0 && x <= y
    ensures d * x <= d * y
  {
    assert d * (y - x) >= 0.0;
  }

  lemma OneRowMore(ta: real, tb: real, d: int, da: int, db: int, last: real)
    requires 0 <= da <= 1 && 0 <= db <= 1 && ta - tb <= d as real * last
    ensures (ta + (if da == 1 then last else 0.0)) - (tb + (if db == 1 then last else 0.0))
         <= (d + da - db) as real * last
  {
    var x, k := d as real, (da - db) as real;
    assert (d + da - db) as real == x + k;
    assert (x + k) * last == x * last + k * last;
    assert k == 0.0 || k == 1.0 || k == -1.0;
  }

  lemma FirstCard(t: set<int>, m: nat)
    requires m > 0
    ensures |First(t, m)| == |First(t, m - 1)| + if m - 1 in t then 1 else 0
  {
    FirstStep(t, m);
  }

  lemma TotalStep(rows: seq<Row>, s: set<int>, m: nat)
    requires 0 < m <= |rows|
    ensures Total(rows, s, m) == Total(rows, s, m - 1) + if m - 1 in s then rows[m - 1].score else 0.0
  {
  }

  lemma NoneBelowZero(s: set<int>)
    requires forall i | i in s :: i >= 0
    ensures First(s, 0) == {}
  {
  }

  /** Between two masks in an ascending ranking, the one that is ahead in every prefix pays at most the last score for
      each row it has more. */
  lemma {:induction false} AheadIsCheaper(rows: seq<Row>, a: set<int>, b: set<int>, n: nat)
    requires 0 < n <= |rows| && Sorted(rows) && (forall i | i in a || i in b :: i >= 0)
    requires forall m: nat | m <= n :: |First(b, m)| <= |First(a, m)|
    ensures Total(rows, a, n) - Total(rows, b, n) <= (|First(a, n)| - |First(b, n)|) as real * rows[n - 1].score
  {
    hide First, Total;
    var last, d := rows[n - 1].score, |First(a, n - 1)| - |First(b, n - 1)|;
    FirstCard(a, n);
    FirstCard(b, n);
    TotalStep(rows, a, n);
    TotalStep(rows, b, n);
    assert |First(b, n - 1)| <= |First(a, n - 1)|;
    if n == 1 {
      NoneBelowZero(a);
      NoneBelowZero(b);
      NothingYet(rows, a, b);
    } else {
      AheadIsCheaper(rows, a, b, n - 1);
      assert Ranked(rows[n - 2], rows[n - 1]);
      Monotone(d as real, rows[n - 2].score, last);
    }
    OneRowMore(Total(rows, a, n - 1), Total(rows, b, n - 1), d, if n - 1 in a then 1 else 0,
               if n - 1 in b then 1 else 0, last);
  }

  lemma NothingYet(rows: seq<Row>, a: set<int>, b: set<int>)
    ensures Total(rows, a, 0) == 0.0 == Total(rows, b, 0)
  {
  }

  lemma {:induction false} GreedyGrows(rows: seq<Row>, caps: Caps, m: nat, n: nat)
    requires m <= n <= |rows|
    ensures Greedy(rows, caps, m) <= Greedy(rows, caps, n)
    decreases n
  {
    if m < n {
      GreedyGrows(rows, caps, m, n - 1);
    }
  }

  lemma {:induction false} GreedyAscending(rows: seq<Row>, caps: Caps, m: nat)
    requires m <= |rows|
    ensures Distinct(Greedy(rows, caps, m))
    decreases m
  {
    if m > 0 {
      GreedyAscending(rows, caps, m - 1);
      var before := Greedy(rows, caps, m - 1);
      forall i | 0 <= i < |before|
        ensures before[i] < m - 1
      {
        var x := before[i];
        assert x in before;
      }
    }
  }

  /** The mask for one target: the first rows greedy chose. */
  function Snapshot(rows: seq<Row>, caps: Caps, target: nat): seq<int> {
    var all := Greedy(rows, caps, |rows|);
    if target <= |all| then all[..target] else all
  }

  lemma SnapshotCard(rows: seq<Row>, caps: Caps, target: nat)
    requires target <= |Greedy(rows, caps, |rows|)|
    ensures |Members(Snapshot(rows, caps, target))| == target
  {
    GreedyAscending(rows, caps, |rows|);
    MembersCard(Snapshot(rows, caps, target));
  }

  /** The snapshot too is ahead of every obedient mask of its size in every prefix. */
  lemma SnapshotAhead(rows: seq<Row>, caps: Caps, target: nat, t: set<int>, m: nat)
    requires target <= |Greedy(rows, caps, |rows|)| && Obeys(rows, caps, t) && |t| == target && m <= |rows|
    ensures |First(t, m)| <= |First(Members(Snapshot(rows, caps, target)), m)|
  {
    var all, some, snap := Greedy(rows, caps, |rows|), Greedy(rows, caps, m), Snapshot(rows, caps, target);
    GreedyGrows(rows, caps, m, |rows|);
    if |some| >= target {
      SnapshotCard(rows, caps, target);
      Subset(First(t, m), t);
      assert snap == some[..target];
      WholeFirst(snap, some, m);
    } else {
      GreedyDominates(rows, caps, m, t);
      assert snap[..|some|] == some;
      Subset(Members(some), First(Members(snap), m));
    }
  }

  lemma WholeFirst(snap: seq<int>, some: seq<int>, m: nat)
    requires |snap| <= |some| && snap == some[..|snap|] && forall i | i in some :: i < m
    ensures First(Members(snap), m) == Members(snap)
  {
    forall i | i in snap
      ensures i < m
    {
      assert i in some;
    }
  }

  /** Every snapshot obeys the caps and has the least total score among all obedient masks of its size. */
  lemma SnapshotOptimal(rows: seq<Row>, caps: Caps, target: nat, t: set<int>)
    requires Sorted(rows) && target <= |Greedy(rows, caps, |rows|)| && Obeys(rows, caps, t) && |t| == target
    ensures Total(rows, Members(Snapshot(rows, caps, target)), |rows|) <= Total(rows, t, |rows|)
  {
    var snap, n := Members(Snapshot(rows, caps, target)), |rows|;
    forall m: nat | m <= n
      ensures |First(t, m)| <= |First(snap, m)|
    {
      SnapshotAhead(rows, caps, target, t, m);
    }
    SnapshotCard(rows, caps, target);
    SnapshotIn(rows, caps, target);
    assert First(snap, n) == snap && First(t, n) == t;
    if n > 0 {
      AheadIsCheaper(rows, snap, t, n);
    }
  }

  lemma SnapshotIn(rows: seq<Row>, caps: Caps, target: nat)
    ensures forall i | i in Snapshot(rows, caps, target) :: 0 <= i < |rows| && i in Greedy(rows, caps, |rows|)
  {
    var all, snap := Greedy(rows, caps, |rows|), Snapshot(rows, caps, target);
    forall i | i in snap
      ensures i in all
    {
      var j :| 0 <= j < |snap| && snap[j] == i;
      assert all[j] == i;
    }
  }

  lemma SubsetObeys(rows: seq<Row>, caps: Caps, a: set<int>, b: set<int>)
    requires a <= b && Obeys(rows, caps, b)
    ensures Obeys(rows, caps, a)
  {
    forall l
      ensures |InLayer(rows, a, l)| <= caps.perLayer
    {
      Subset(InLayer(rows, a, l), InLayer(rows, b, l));
    }
    forall l, g
      ensures |InGroup(rows, caps, a, l, g)| <= caps.perGroup
    {
      Subset(InGroup(rows, caps, a, l, g), InGroup(rows, caps, b, l, g));
    }
  }

  lemma SnapshotObeys(rows: seq<Row>, caps: Caps, target: nat)
    requires caps.perLayer >= 0 && caps.perGroup >= 0
    ensures Obeys(rows, caps, Members(Snapshot(rows, caps, target)))
  {
    GreedyObeys(rows, caps, |rows|);
    SnapshotIn(rows, caps, target);
    SubsetObeys(rows, caps, Members(Snapshot(rows, caps, target)), Members(Greedy(rows, caps, |rows|)));
  }

  /** The caps admit a mask of a size exactly when greedy reaches it. */
  lemma FeasibleIff(rows: seq<Row>, caps: Caps, target: nat)
    requires caps.perLayer >= 0 && caps.perGroup >= 0
    ensures (exists t :: Obeys(rows, caps, t) && |t| == target) <==> target <= |Greedy(rows, caps, |rows|)|
  {
    if t :| Obeys(rows, caps, t) && |t| == target {
      GreedyDominates(rows, caps, |rows|, t);
      assert First(t, |rows|) == t;
      GreedyAscending(rows, caps, |rows|);
      MembersCard(Greedy(rows, caps, |rows|));
    }
    if target <= |Greedy(rows, caps, |rows|)| {
      SnapshotObeys(rows, caps, target);
      SnapshotCard(rows, caps, target);
    }
  }

  /** Smaller targets give sub-masks. */
  lemma SnapshotsNested(rows: seq<Row>, caps: Caps, small: nat, large: nat)
    requires small <= large
    ensures Snapshot(rows, caps, small) <= Snapshot(rows, caps, large)
  {
  }

  // ---------------------------------------------------------------- the planning loop

  datatype Error = BadConfig | CapsPermitOnly(slots: nat)

  function Count<K>(used: map<K, nat>, k: K): nat { if k in used then used[k] else 0 }

  predicate Increasing(targets: seq<int>) {
    |targets| > 0 && targets[0] > 0 && forall i, j | 0 <= i < j < |targets| :: targets[i] < targets[j]
  }

  predicate GoodConfig(nExperts: int, nGroups: int, targets: seq<int>, perLayer: int, perGroup: int) {
    nExperts > 0 && nGroups > 0 && nExperts % nGroups == 0 && Increasing(targets) && perLayer > 0 && perGroup > 0
  }

  /** `n_experts // n_groups`. */
  function PerGroup(nExperts: int, nGroups: int): (size: Size)
    requires nExperts > 0 && nGroups > 0 && nExperts % nGroups == 0
    ensures size * nGroups == nExperts
  {
    var q := nExperts / nGroups;
    assert q * nGroups == nExperts;
    assert q <= 0 ==> q * nGroups <= 0;
    q
  }

  function ChosenOfLayer(rows: seq<Row>, mask: seq<int>, layer: nat): set<int> {
    set i | i in mask && 0 <= i < |rows| && rows[i].layer == layer
  }

  /** The chosen rows of part `g` of a layer, the experts from `g * per` to `(g + 1) * per`. */
  function ChosenOfPart(rows: seq<Row>, mask: seq<int>, layer: nat, g: int, per: int): set<int> {
    set i | i in mask && 0 <= i < |rows| && rows[i].layer == layer && g * per <= rows[i].expert < (g + 1) * per
  }

  /** The caps of a mask, by ranges of experts: of each layer as a whole, and of each of its `nGroups` equal parts. */
  ghost predicate WithinCaps(rows: seq<Row>, mask: seq<int>, nExperts: int, nGroups: int, perLayer: int, perGroup: int)
    requires nGroups > 0
  {
    var per := nExperts / nGroups;
    (forall layer :: |ChosenOfLayer(rows, mask, layer)| <= perLayer) &&
    (forall layer, g | 0 <= g < nGroups :: |ChosenOfPart(rows, mask, layer, g, per)| <= perGroup)
  }

  lemma ObeysWithin(rows: seq<Row>, mask: seq<int>, nExperts: int, nGroups: int, perLayer: int, perGroup: int)
    requires nExperts > 0 && nGroups > 0 && nExperts % nGroups == 0
    requires Obeys(rows, Caps(perLayer, perGroup, PerGroup(nExperts, nGroups)), Members(mask))
    ensures WithinCaps(rows, mask, nExperts, nGroups, perLayer, perGroup)
  {
    var per := PerGroup(nExperts, nGroups);
    var caps := Caps(perLayer, perGroup, per);
    assert per == nExperts / nGroups;
    hide PerGroup;
    forall layer
      ensures |ChosenOfLayer(rows, mask, layer)| <= perLayer
    {
      assert ChosenOfLayer(rows, mask, layer) == InLayer(rows, Members(mask), layer);
    }
    forall layer, g | 0 <= g < nGroups
      ensures |ChosenOfPart(rows, mask, layer, g, per)| <= perGroup
    {
      SamePart(rows, caps, mask, layer, g);
    }
  }

  lemma SamePart(rows: seq<Row>, caps: Caps, mask: seq<int>, layer: nat, g: int)
    ensures ChosenOfPart(rows, mask, layer, g, caps.groupSize) == InGroup(rows, caps, Members(mask), layer, g)
  {
  }

  /** The counters of the loop agree with the rows chosen. */
  ghost predicate Tallied(rows: seq<Row>, caps: Caps, s: set<int>,
                          layerUsed: map<nat, nat>, groupUsed: map<(nat, int), nat>) {
    (forall l :: Count(layerUsed, l) == |InLayer(rows, s, l)|) &&
    (forall l, g :: Count(groupUsed, (l, g)) == |InGroup(rows, caps, s, l, g)|)
  }

  ghost predicate Snapped(snapshots: map<int, seq<int>>, targets: seq<int>, chosen: seq<int>) {
    forall t | t in targets && 0 <= t <= |chosen| :: t in snapshots && snapshots[t] == chosen[..t]
  }

  lemma TallyMore(rows: seq<Row>, caps: Caps, s: set<int>, i: nat,
                  layerUsed: map<nat, nat>, groupUsed: map<(nat, int), nat>)
    requires Tallied(rows, caps, s, layerUsed, groupUsed) && i < |rows| && i !in s
    ensures var l, g := rows[i].layer, GroupOf(rows[i], caps);
            Tallied(rows, caps, s + {i as int}, layerUsed[l := Count(layerUsed, l) + 1],
                    groupUsed[(l, g) := Count(groupUsed, (l, g)) + 1])
  {
    hide InLayer, InGroup, GroupOf, Spans;
    var more, l, g := s + {i as int}, rows[i].layer, GroupOf(rows[i], caps);
    var layers, groups := layerUsed[l := Count(layerUsed, l) + 1], groupUsed[(l, g) := Count(groupUsed, (l, g)) + 1];
    forall k
      ensures Count(layers, k) == |InLayer(rows, more, k)|
    {
      LayerGrows(rows, s, i, k);
    }
    forall k, h
      ensures Count(groups, (k, h)) == |InGroup(rows, caps, more, k, h)|
    {
      GroupGrows(rows, caps, s, i, k, h);
    }
  }

  lemma TallyNone(rows: seq<Row>, caps: Caps)
    ensures Tallied(rows, caps, {}, map[], map[])
  {
    forall l, g
      ensures InLayer(rows, {}, l) == {} && InGroup(rows, caps, {}, l, g) == {}
    {
    }
  }

  lemma SnapMore(snapshots: map<int, seq<int>>, targets: seq<int>, chosen: seq<int>, i: int)
    requires Snapped(snapshots, targets, chosen)
    ensures var more := chosen + [i];
            Snapped(if |more| in targets then snapshots[|more| := more] else snapshots, targets, more)
  {
    var more := chosen + [i];
    forall t | t in targets && 0 <= t <= |chosen|
      ensures more[..t] == chosen[..t]
    {
    }
  }

  /** The selection loop of `build_report`: one greedy pass over the ranking, snapshotted at each target. */
  method BuildMasks(rows: seq<Row>, nExperts: int, nGroups: int, targets: seq<int>, perLayer: int, perGroup: int)
      returns (r: Result<map<int, seq<int>>, Error>)
    requires Sorted(rows)
    ensures r == Err(BadConfig) <==> !GoodConfig(nExperts, nGroups, targets, perLayer, perGroup)
    ensures GoodConfig(nExperts, nGroups, targets, perLayer, perGroup) ==>
      var caps := Caps(perLayer, perGroup, PerGroup(nExperts, nGroups));
      (r.Err? <==> !exists t :: Obeys(rows, caps, t) && |t| == targets[|targets| - 1]) &&
      (r.Err? ==> r.error == CapsPermitOnly(|Greedy(rows, caps, |rows|)|)) &&
      (r.Ok? ==> forall t | t in targets ::
        t >= 0 && t in r.value && r.value[t] == Snapshot(rows, caps, t) && |r.value[t]| == t &&
        WithinCaps(rows, r.value[t], nExperts, nGroups, perLayer, perGroup))
  {
    hide InLayer, InGroup, GroupOf, Obeys, Sorted, Tallied, Snapped, Snapshot, Blocked, WithinCaps, PerGroup;
    if nExperts <= 0 || nGroups <= 0 || nExperts % nGroups != 0 || !Increasing(targets) || perLayer <= 0 ||
      perGroup <= 0 {
      return Err(BadConfig);
    }
    var caps := Caps(perLayer, perGroup, PerGroup(nExperts, nGroups));
    var maxTarget := targets[|targets| - 1];
    FeasibleIff(rows, caps, maxTarget);
    var layerUsed: map<nat, nat>, groupUsed: map<(nat, int), nat> := map[], map[];
    var chosen: seq<int>, snapshots: map<int, seq<int>> := [], map[];
    TallyNone(rows, caps);
    SnapNone(targets);
    assert Members(chosen) == {};
    var i := 0;
    while i < |rows|
      invariant 0 <= i <= |rows| && chosen == Greedy(rows, caps, i) && |chosen| < maxTarget
      invariant Tallied(rows, caps, Members(chosen), layerUsed, groupUsed) && Snapped(snapshots, targets, chosen)
    {
      var layer, group := rows[i].layer, GroupOf(rows[i], caps);
      TallySays(rows, caps, Members(chosen), layerUsed, groupUsed, i);
      if Count(layerUsed, layer) >= perLayer || Count(groupUsed, (layer, group)) >= perGroup {
        i := i + 1;
        continue;
      }
      TallyMore(rows, caps, Members(chosen), i, layerUsed, groupUsed);
      SnapMore(snapshots, targets, chosen, i);
      assert Members(chosen + [i]) == Members(chosen) + {i};
      chosen := chosen + [i];
      layerUsed := layerUsed[layer := Count(layerUsed, layer) + 1];
      groupUsed := groupUsed[(layer, group) := Count(groupUsed, (layer, group)) + 1];
      if |chosen| in targets {
        snapshots := snapshots[|chosen| := chosen];
      }
      i := i + 1;
      if |chosen| >= maxTarget {
        break;
      }
    }
    GreedyGrows(rows, caps, i, |rows|);
    if |chosen| < maxTarget {
      return Err(CapsPermitOnly(|chosen|));
    }
    TargetsReached(rows, caps, snapshots, targets, chosen);
    forall t | t in targets
      ensures WithinCaps(rows, snapshots[t], nExperts, nGroups, perLayer, perGroup)
    {
      SnapshotObeys(rows, caps, t);
      ObeysWithin(rows, snapshots[t], nExperts, nGroups, perLayer, perGroup);
    }
    return Ok(snapshots);
  }

  lemma SnapNone(targets: seq<int>)
    requires Increasing(targets)
    ensures Snapped(map[], targets, [])
  {
    forall t | t in targets
      ensures t > 0
    {
      var j :| 0 <= j < |targets| && targets[j] == t;
      assert j > 0 ==> targets[0] < targets[j];
    }
  }

  lemma TallySays(rows: seq<Row>, caps: Caps, s: set<int>, layerUsed: map<nat, nat>, groupUsed: map<(nat, int), nat>,
                  i: nat)
    requires Tallied(rows, caps, s, layerUsed, groupUsed) && i < |rows|
    ensures var l, g := rows[i].layer, GroupOf(rows[i], caps);
            Blocked(rows, caps, s, i) <==>
              Count(layerUsed, l) >= caps.perLayer || Count(groupUsed, (l, g)) >= caps.perGroup
  {
  }

  lemma TargetsReached(rows: seq<Row>, caps: Caps, snapshots: map<int, seq<int>>, targets: seq<int>, chosen: seq<int>)
    requires Increasing(targets) && Snapped(snapshots, targets, chosen) && |chosen| >= targets[|targets| - 1]
    requires chosen <= Greedy(rows, caps, |rows|)
    ensures forall t | t in targets ::
      t >= 0 && t in snapshots && snapshots[t] == Snapshot(rows, caps, t) && |snapshots[t]| == t
  {
    forall t | t in targets
      ensures 0 <= t <= |chosen| && chosen[..t] == Snapshot(rows, caps, t)
    {
      var j :| 0 <= j < |targets| && targets[j] == t;
      assert j > 0 ==> targets[0] < targets[j];
      assert j < |targets| - 1 ==> targets[j] < targets[|targets| - 1];
    }
  }
}
