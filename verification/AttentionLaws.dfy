/** What the pieces of attention mean: softmax weights follow the scores, rotary scores depend on the distance of two
    positions, normalised rows have unit mean square, and the heads tile the projections. */
module AttentionLaws {
  import opened Indexing
  import opened Vectors
  import opened Mla

  // ---------------------------------------------------------------- softmax

  ghost predicate Positive(exp: real -> real) { forall x :: exp(x) > 0.0 }

  ghost predicate Increasing(exp: real -> real) { forall x, y | x < y :: exp(x) < exp(y) }

  ghost predicate Multiplicative(exp: real -> real) { forall x, y :: exp(x + y) == exp(x) * exp(y) }

  lemma ExpSum(exp: real -> real, x: real, y: real)
    requires Multiplicative(exp)
    ensures exp(x + y) == exp(x) * exp(y)
  {
  }

  /** Positive weights that add up to one and stand in the ratio of the exponentials of the scores. */
  ghost predicate Weighs(exp: real -> real, s: Vec, p: Vec, n: nat) {
    |p| == n && (forall j | 0 <= j < n :: p[j] > 0.0) && Total(p, n) == 1.0 &&
    forall i, j | 0 <= i < n && 0 <= j < n :: Mul(p[i], exp(At(s, j))) == Mul(p[j], exp(At(s, i)))
  }

  lemma {:induction false} TotalScaled(e: Vec, p: Vec, c: real, n: nat)
    requires c > 0.0 && forall j | 0 <= j < n :: At(p, j) == Div(At(e, j), c)
    ensures Total(p, n) == Div(Total(e, n), c)
  {
    hide Div;
    if n == 0 {
      Quotients(0.0, 0.0, c);
    } else {
      TotalScaled(e, p, c, n - 1);
      Quotients(Total(e, n - 1), At(e, n - 1), c);
    }
  }

  lemma Quotients(a: real, b: real, c: real)
    requires c > 0.0
    ensures Div(0.0, c) == 0.0 && Div(c, c) == 1.0 && Div(a + b, c) == Div(a, c) + Div(b, c)
    ensures a > 0.0 ==> Div(a, c) > 0.0
  {
  }

  lemma SoftmaxAt(exp: real -> real, s: Vec, n: nat, j: nat)
    requires j < n && Positive(exp)
    ensures var e := Shifted(exp, s, n);
            |e| == n && Total(e, n) > 0.0 && e[j] == exp(At(s, j) - MaxScore(s, n)) > 0.0 &&
            Softmax(exp, s, n)[j] == Div(e[j], Total(e, n))
  {
    DenominatorPositive(exp, s, n);
  }

  /** With a positive exponential the weights are positive and add up to one. */
  lemma SoftmaxTotal(exp: real -> real, s: Vec, n: nat)
    requires n > 0 && Positive(exp)
    ensures (forall j | 0 <= j < n :: Softmax(exp, s, n)[j] > 0.0) && Total(Softmax(exp, s, n), n) == 1.0
  {
    var e, p := Shifted(exp, s, n), Softmax(exp, s, n);
    var denom := Total(e, n);
    DenominatorPositive(exp, s, n);
    hide Softmax, Shifted, Total, Div, Positive;
    forall j: nat | j < n
      ensures At(p, j) == Div(At(e, j), denom) && p[j] > 0.0
    {
      SoftmaxAt(exp, s, n, j);
      Quotients(e[j], 0.0, denom);
    }
    TotalScaled(e, p, denom, n);
    Quotients(0.0, 0.0, denom);
  }

  /** A larger score gets a larger weight, for any positive and increasing exponential. */
  lemma SoftmaxOrder(exp: real -> real, s: Vec, n: nat, i: nat, j: nat)
    requires i < n && j < n && Positive(exp) && Increasing(exp)
    ensures Softmax(exp, s, n)[i] < Softmax(exp, s, n)[j] <==> At(s, i) < At(s, j)
  {
    SoftmaxAt(exp, s, n, i);
    SoftmaxAt(exp, s, n, j);
    var e, top := Shifted(exp, s, n), MaxScore(s, n);
    hide Softmax, Shifted, MaxScore, Total, At;
    QuotientOrder(e[i], e[j], Total(e, n));
    assert At(s, i) < At(s, j) <==> At(s, i) - top < At(s, j) - top;
    assert At(s, j) < At(s, i) <==> At(s, j) - top < At(s, i) - top;
  }

  lemma QuotientOrder(a: real, b: real, c: real)
    requires c > 0.0
    ensures Div(a, c) < Div(b, c) <==> a < b
  {
    var x, y := a / c, b / c;
    assert x * c == a && y * c == b;
    assert x < y ==> x * c < y * c;
    assert x >= y ==> x * c >= y * c;
  }

  /** Shifting by the largest score changes nothing: the weights are those of the exponentials of the scores. */
  lemma SoftmaxWeighs(exp: real -> real, s: Vec, n: nat)
    requires n > 0 && Positive(exp) && Multiplicative(exp)
    ensures Weighs(exp, s, Softmax(exp, s, n), n)
  {
    SoftmaxTotal(exp, s, n);
    var p := Softmax(exp, s, n);
    hide Positive, Multiplicative, Softmax, Total, Mul;
    forall i: nat, j: nat | i < n && j < n
      ensures Mul(p[i], exp(At(s, j))) == Mul(p[j], exp(At(s, i)))
    {
      SoftmaxRatio(exp, s, n, i, j);
    }
  }

  lemma SoftmaxRatio(exp: real -> real, s: Vec, n: nat, i: nat, j: nat)
    requires i < n && j < n && Positive(exp) && Multiplicative(exp)
    ensures Mul(Softmax(exp, s, n)[i], exp(At(s, j))) == Mul(Softmax(exp, s, n)[j], exp(At(s, i)))
  {
    hide Positive, Multiplicative, Softmax, Shifted, MaxScore, Total, At;
    var e, top := Shifted(exp, s, n), MaxScore(s, n);
    SoftmaxAt(exp, s, n, i);
    SoftmaxAt(exp, s, n, j);
    Unshifted(exp, At(s, i), top);
    Unshifted(exp, At(s, j), top);
    SameRatio(e[i], e[j], Total(e, n), exp(top));
  }

  lemma Unshifted(exp: real -> real, x: real, top: real)
    requires Multiplicative(exp)
    ensures exp(x) == exp(x - top) * exp(top)
  {
    ExpSum(exp, x - top, top);
    hide Multiplicative;
    assert x - top + top == x;
  }

  lemma SameRatio(a: real, b: real, t: real, c: real)
    requires t > 0.0
    ensures Mul(Div(a, t), b * c) == Mul(Div(b, t), a * c)
  {
    var x, y := a / t, b / t;
    assert x * t == a && y * t == b;
    assert x * (y * t * c) == y * (x * t * c);
  }

  function ExpTotal(exp: real -> real, s: Vec, n: nat): real {
    if n == 0 then 0.0 else ExpTotal(exp, s, n - 1) + exp(At(s, n - 1))
  }

  lemma {:induction false} WeightShare(exp: real -> real, s: Vec, p: Vec, n: nat, j: nat, k: nat)
    requires Weighs(exp, s, p, n) && j < n && k <= n
    ensures p[j] * ExpTotal(exp, s, k) == Total(p, k) * exp(At(s, j))
  {
    if k == 0 {
    } else {
      WeightShare(exp, s, p, n, j, k - 1);
      assert Mul(p[j], exp(At(s, k - 1))) == Mul(p[k - 1], exp(At(s, j)));
      MoreShare(p[j], ExpTotal(exp, s, k - 1), exp(At(s, k - 1)), Total(p, k - 1), p[k - 1], exp(At(s, j)));
    }
  }

  lemma MoreShare(a: real, b: real, c: real, d: real, w: real, x: real)
    requires a * b == d * x && Mul(a, c) == Mul(w, x)
    ensures a * (b + c) == (d + w) * x
  {
    assert a * (b + c) == a * b + a * c;
    assert (d + w) * x == d * x + w * x;
  }

  lemma {:induction false} ExpTotalPositive(exp: real -> real, s: Vec, n: nat)
    requires n > 0 && Positive(exp)
    ensures ExpTotal(exp, s, n) > 0.0
  {
    if n > 1 {
      ExpTotalPositive(exp, s, n - 1);
    }
  }

  /** The weights of a row of scores are unique. */
  lemma WeightsUnique(exp: real -> real, s: Vec, p: Vec, q: Vec, n: nat)
    requires n > 0 && Positive(exp) && Weighs(exp, s, p, n) && Weighs(exp, s, q, n)
    ensures p == q
  {
    ExpTotalPositive(exp, s, n);
    forall j: nat | j < n
      ensures p[j] == q[j]
    {
      WeightShare(exp, s, p, n, j, n);
      WeightShare(exp, s, q, n, j, n);
      Cancel(p[j], q[j], ExpTotal(exp, s, n));
    }
  }

  lemma Cancel(a: real, b: real, c: real)
    requires c != 0.0 && a * c == b * c
    ensures a == b
  {
    assert (a - b) * c == 0.0;
  }

  // ---------------------------------------------------------------- one head

  /** The scaled match of a query with a key. */
  function MatchScore(m: Layer, q: Vec, key: Vec): real {
    Mul(Dot(q, key, m.nope + m.ropeDim), m.invSqrt((m.nope + m.ropeDim) as real))
  }

  /** The output of a head is the average of the value rows, weighted by how well their keys match the query. */
  lemma AttendHeadAverages(m: Layer, q: Vec, keys: seq<Vec>, values: seq<Vec>, s: Vec) returns (p: Vec)
    requires |keys| == |s| > 0 && Positive(m.exp) && Multiplicative(m.exp)
    requires forall j | 0 <= j < |s| :: s[j] == MatchScore(m, q, keys[j])
    ensures Weighs(m.exp, s, p, |keys|)
    ensures forall d: nat | d < m.valueDim :: AttendHead(m, q, keys, values)[d] == Comb(p, values, |keys|, d)
  {
    forall j: nat | j < |keys|
      ensures Scores(m, q, keys)[j] == s[j]
    {
      ScoreAt(m, q, keys, j);
    }
    assert Scores(m, q, keys) == s;
    SoftmaxWeighs(m.exp, s, |keys|);
    p := Softmax(m.exp, s, |keys|);
  }

  /** `out` averages the value rows, weighted by how well their keys match the query. */
  ghost predicate Attends(m: Layer, q: Vec, keys: seq<Vec>, values: seq<Vec>, out: Vec) {
    |out| == m.valueDim && exists s: Vec, p: Vec ::
      Weighs(m.exp, s, p, |keys|) && |s| == |keys| && (forall j | 0 <= j < |s| :: s[j] == MatchScore(m, q, keys[j])) &&
      forall d: nat | d < m.valueDim :: out[d] == Comb(p, values, |keys|, d)
  }

  lemma HeadAttends(m: Layer, q: Vec, keys: seq<Vec>, values: seq<Vec>)
    requires |keys| > 0 && Positive(m.exp) && Multiplicative(m.exp)
    ensures Attends(m, q, keys, values, AttendHead(m, q, keys, values))
  {
    hide MatchScore, Weighs, AttendHead, Comb, Positive, Multiplicative;
    var s := seq(|keys|, j requires 0 <= j < |keys| => MatchScore(m, q, keys[j]));
    var p := AttendHeadAverages(m, q, keys, values, s);
    assert Weighs(m.exp, s, p, |keys|);
  }

  /** The absorbed head averages the values its latents stand for, by the match of the keys they stand for. */
  lemma AbsorbedAttends(m: Layer, x: Vec, pos: nat, h: nat, latents: seq<Vec>, ropes: seq<Vec>,
                        keys: seq<Vec>, values: seq<Vec>)
    requires |latents| == |ropes| == |keys| == |values| > 0 && Positive(m.exp) && Multiplicative(m.exp)
    requires forall j | 0 <= j < |keys| :: keys[j] == KeyNope(m, latents[j], h) + ropes[j]
    requires forall j | 0 <= j < |values| :: values[j] == Value(m, latents[j], h)
    ensures Attends(m, Query(m, x, pos, h), keys, values, AbsorbedHead(m, x, pos, h, latents, ropes))
  {
    hide Attends, AttendHead, AbsorbedHead, Query, KeyNope, Value, Positive, Multiplicative;
    AbsorbedHeadIsExpanded(m, x, pos, h, latents, ropes, keys, values);
    HeadAttends(m, Query(m, x, pos, h), keys, values);
  }

  /** Entry `d` of every row lies in a range. */
  ghost predicate Ranged(rows: seq<Vec>, d: nat, lo: real, hi: real) {
    forall j: nat | j < |rows| :: lo <= At(rows[j], d) <= hi
  }

  /** An average stays between the smallest and the largest value. */
  lemma {:induction false} AverageBetween(p: Vec, rows: seq<Vec>, n: nat, d: nat, lo: real, hi: real)
    requires n <= |rows| && Ranged(rows, d, lo, hi) && forall j: nat | j < n :: At(p, j) >= 0.0
    ensures Total(p, n) * lo <= Comb(p, rows, n, d) <= Total(p, n) * hi
  {
    if n > 0 {
      AverageBetween(p, rows, n - 1, d, lo, hi);
      var w, x, t := At(p, n - 1), At(Row(rows, n - 1), d), Total(p, n - 1);
      assert w * (x - lo) >= 0.0 && w * (hi - x) >= 0.0;
      assert (t + w) * lo == t * lo + w * lo && (t + w) * hi == t * hi + w * hi;
    }
  }

  /** Head `h` of causal row `t`: the average of the value rows up to `t`, weighted by how well their keys match the
      query of token `t`; no entry leaves the range of the values. */
  lemma CausalHeadAverages(m: Layer, xs: seq<Vec>, t: nat, h: nat, s: Vec, values: seq<Vec>) returns (p: Vec)
    requires t < |xs| && |s| == |values| == t + 1 && Positive(m.exp) && Multiplicative(m.exp)
    requires forall j | 0 <= j <= t ::
      s[j] == MatchScore(m, Query(m, xs[t], t, h), KeyRow(m, xs[j], j, h)) && values[j] == ValueRow(m, xs[j], h)
    ensures Weighs(m.exp, s, p, t + 1)
    ensures forall d: nat | d < m.valueDim :: CausalHead(m, xs, t, h)[d] == Comb(p, values, t + 1, d)
    ensures forall d: nat, lo, hi | d < m.valueDim && Ranged(values, d, lo, hi) ::
      lo <= CausalHead(m, xs, t, h)[d] <= hi
  {
    hide Query, KeyRow, ValueRow, AttendHead, MatchScore;
    var keys := KeysOf(m, xs[..t + 1], h);
    assert ValuesOf(m, xs[..t + 1], h) == values;
    p := AttendHeadAverages(m, Query(m, xs[t], t, h), keys, values, s);
    hide CausalHead, Ranged, Comb, Total;
    forall d: nat, lo, hi | d < m.valueDim && Ranged(values, d, lo, hi)
      ensures lo <= CausalHead(m, xs, t, h)[d] <= hi
    {
      AverageBetween(p, values, t + 1, d, lo, hi);
    }
  }

  // ---------------------------------------------------------------- rotary positions

  /** The angle of pair `i` at distance `k` is the difference of the angles at any two positions `k` apart. */
  ghost predicate Angles(m: Layer) {
    forall p: nat, k: nat, i: nat ::
      m.cosine(k, i) == Mul(m.cosine(p + k, i), m.cosine(p, i)) + Mul(m.sine(p + k, i), m.sine(p, i)) &&
      m.sine(k, i) == Mul(m.sine(p + k, i), m.cosine(p, i)) - Mul(m.cosine(p + k, i), m.sine(p, i))
  }

  function PairDot(a0: real, a1: real, b0: real, b1: real): real { Mul(a0, b0) + Mul(a1, b1) }

  function PairCross(a0: real, a1: real, b0: real, b1: real): real { Mul(a0, b1) - Mul(a1, b0) }

  /** Pair `i` of `a`, turned by the angle of distance `k`, against pair `i` of `b`. */
  function TurnedPair(m: Layer, a: Vec, b: Vec, k: nat, i: nat): real {
    var a0, a1, b0, b1 := At(a, 2 * i), At(a, 2 * i + 1), At(b, 2 * i), At(b, 2 * i + 1);
    Mul(m.cosine(k, i), PairDot(a0, a1, b0, b1)) + Mul(m.sine(k, i), PairCross(a0, a1, b0, b1))
  }

  function TurnedDot(m: Layer, a: Vec, b: Vec, k: nat, n: nat): real {
    if n == 0 then 0.0 else TurnedDot(m, a, b, k, n - 1) + TurnedPair(m, a, b, k, n - 1)
  }

  lemma Regroup(p: real, q: real, r: real, t: real)
    ensures Mul(Mul(p, q), Mul(r, t)) == Mul(Mul(p, r), Mul(q, t))
  {
    assert (p * q) * (r * t) == (p * r) * (q * t);
  }

  lemma TimesSum(x: real, y: real, u: real, v: real)
    ensures Mul(x + y, u + v) == Mul(x, u) + Mul(x, v) + Mul(y, u) + Mul(y, v)
    ensures Mul(x - y, u - v) == Mul(x, u) - Mul(x, v) - Mul(y, u) + Mul(y, v)
  {
  }

  lemma Commute(x: real, y: real)
    ensures Mul(x, y) == Mul(y, x)
  {
  }

  /** Two pairs turned by their own angles, as the pairs turned by the difference. */
  lemma PairTurn(a0: real, a1: real, b0: real, b1: real, c: real, s: real, e: real, f: real, ck: real, sk: real)
    requires ck == Mul(c, e) + Mul(s, f) && sk == Mul(s, e) - Mul(c, f)
    ensures Mul(Mul(a0, c) - Mul(a1, s), Mul(b0, e) - Mul(b1, f)) +
              Mul(Mul(a1, c) + Mul(a0, s), Mul(b1, e) + Mul(b0, f))
         == Mul(ck, PairDot(a0, a1, b0, b1)) + Mul(sk, PairCross(a0, a1, b0, b1))
  {
    hide Mul;
    TimesSum(Mul(a0, c), Mul(a1, s), Mul(b0, e), Mul(b1, f));
    TimesSum(Mul(a1, c), Mul(a0, s), Mul(b1, e), Mul(b0, f));
    Regroup(a0, c, b0, e);
    Regroup(a0, c, b1, f);
    Regroup(a1, s, b0, e);
    Regroup(a1, s, b1, f);
    Regroup(a1, c, b1, e);
    Regroup(a1, c, b0, f);
    Regroup(a0, s, b1, e);
    Regroup(a0, s, b0, f);
    TimesSum(Mul(a0, b0), Mul(a1, b1), Mul(c, e), Mul(s, f));
    TimesSum(Mul(a0, b1), Mul(a1, b0), Mul(s, e), Mul(c, f));
    Commute(ck, PairDot(a0, a1, b0, b1));
    Commute(sk, PairCross(a0, a1, b0, b1));
  }

  lemma PairScore(m: Layer, a: Vec, b: Vec, p: nat, k: nat, i: nat)
    requires Angles(m)
    ensures Mul(RopeEven(m, a, p + k, i), RopeEven(m, b, p, i)) + Mul(RopeOdd(m, a, p + k, i), RopeOdd(m, b, p, i))
         == TurnedPair(m, a, b, k, i)
  {
    hide At, Mul, PairDot, PairCross;
    PairTurn(At(a, 2 * i), At(a, 2 * i + 1), At(b, 2 * i), At(b, 2 * i + 1),
             m.cosine(p + k, i), m.sine(p + k, i), m.cosine(p, i), m.sine(p, i), m.cosine(k, i), m.sine(k, i));
  }

  function Evens(m: Layer, raw: Vec, pos: nat, n: nat): Vec {
    seq(n, i requires 0 <= i => RopeEven(m, raw, pos, i))
  }

  function Odds(m: Layer, raw: Vec, pos: nat, n: nat): Vec {
    seq(n, i requires 0 <= i => RopeOdd(m, raw, pos, i))
  }

  lemma RopeHalves(m: Layer, raw: Vec, pos: nat, half: nat)
    requires m.ropeDim == half + half
    ensures Rope(m, raw, pos) == Evens(m, raw, pos, half) + Odds(m, raw, pos, half)
  {
    hide RopeEven, RopeOdd;
  }

  lemma {:induction false} PairScores(m: Layer, a: Vec, b: Vec, p: nat, k: nat, half: nat, n: nat)
    requires Angles(m) && n <= half
    ensures Dot(Evens(m, a, p + k, half), Evens(m, b, p, half), n) +
              Dot(Odds(m, a, p + k, half), Odds(m, b, p, half), n)
         == TurnedDot(m, a, b, k, n)
  {
    hide RopeEven, RopeOdd, Mul, Angles, TurnedPair;
    if n > 0 {
      PairScores(m, a, b, p, k, half, n - 1);
      PairScore(m, a, b, p, k, n - 1);
    }
  }

  /** The rotary part of a score: the pairs of one row turned by the distance, whatever the positions. */
  lemma RotaryDot(m: Layer, a: Vec, b: Vec, p: nat, k: nat)
    requires m.ropeDim % 2 == 0 && Angles(m)
    ensures Dot(Rope(m, a, p + k), Rope(m, b, p), m.ropeDim) == TurnedDot(m, a, b, k, m.ropeDim / 2)
  {
    hide Evens, Odds, Rope, Dot, TurnedDot, Angles;
    var half := m.ropeDim / 2;
    assert half + half == m.ropeDim;
    RopeHalves(m, a, p + k, half);
    RopeHalves(m, b, p, half);
    RotaryHalves(m, a, b, p, k, half);
    PairScores(m, a, b, p, k, half, half);
  }

  lemma RotaryHalves(m: Layer, a: Vec, b: Vec, p: nat, k: nat, n: nat)
    ensures Dot(Evens(m, a, p + k, n) + Odds(m, a, p + k, n), Evens(m, b, p, n) + Odds(m, b, p, n), n + n)
         == Dot(Evens(m, a, p + k, n), Evens(m, b, p, n), n) + Dot(Odds(m, a, p + k, n), Odds(m, b, p, n), n)
  {
    hide RopeEven, RopeOdd;
    DotConcat(Evens(m, a, p + k, n), Evens(m, b, p, n), n, Odds(m, a, p + k, n), Odds(m, b, p, n), n);
  }

  /** A score depends on the two tokens and on how far apart they are, not on where they are. */
  lemma ScoreByDistance(m: Layer, x: Vec, y: Vec, p: nat, k: nat, h: nat)
    requires m.ropeDim % 2 == 0 && Angles(m)
    ensures Dot(Query(m, x, p + k, h), KeyRow(m, y, p, h), m.nope + m.ropeDim) ==
            Dot(QueryNope(m, x, h), KeyNope(m, Latent(m, y), h), m.nope) +
              TurnedDot(m, QueryRaw(m, x, h), KvA(m, y)[m.rank..], k, m.ropeDim / 2)
  {
    hide Rope, Dot, TurnedDot, Angles, Latent, KeyRows;
    DotConcat(QueryNope(m, x, h), KeyNope(m, Latent(m, y), h), m.nope,
              QueryRope(m, x, p + k, h), RopeKey(m, y, p), m.ropeDim);
    RotaryDot(m, QueryRaw(m, x, h), KvA(m, y)[m.rank..], p, k);
  }

  lemma {:induction false} SquareSumConcat(a: Vec, b: Vec, n: nat, k: nat)
    requires |a| == n
    ensures SquareSum(a + b, n + k) == SquareSum(a, n) + SquareSum(b, k)
  {
    SquareIsDot(a + b, n + k);
    SquareIsDot(a, n);
    SquareIsDot(b, k);
    DotConcat(a, a, n, b, b, k);
  }

  lemma {:induction false} SquareIsDot(a: Vec, n: nat)
    ensures SquareSum(a, n) == Dot(a, a, n)
  {
    if n > 0 {
      SquareIsDot(a, n - 1);
    }
  }

  /** The first `n` angles at a position have a point on the unit circle. */
  ghost predicate OnCircle(m: Layer, pos: nat, n: nat) {
    forall i: nat | i < n :: Mul(m.cosine(pos, i), m.cosine(pos, i)) + Mul(m.sine(pos, i), m.sine(pos, i)) == 1.0
  }

  lemma {:induction false} PairNorms(m: Layer, raw: Vec, pos: nat, half: nat, n: nat)
    requires n <= half && OnCircle(m, pos, n)
    ensures SquareSum(Evens(m, raw, pos, half), n) + SquareSum(Odds(m, raw, pos, half), n) == SquareSum(raw, 2 * n)
  {
    if n > 0 {
      PairNorms(m, raw, pos, half, n - 1);
      assert SquareSum(raw, 2 * n) == SquareSum(raw, 2 * n - 1) + Mul(At(raw, 2 * n - 1), At(raw, 2 * n - 1));
      PairNorm(m, raw, pos, n - 1);
      hide RopeEven, RopeOdd, Mul;
      assert SquareSum(raw, 2 * n - 1) == SquareSum(raw, 2 * n - 2) + Mul(At(raw, 2 * n - 2), At(raw, 2 * n - 2));
    }
  }

  lemma PairNorm(m: Layer, raw: Vec, pos: nat, i: nat)
    requires Mul(m.cosine(pos, i), m.cosine(pos, i)) + Mul(m.sine(pos, i), m.sine(pos, i)) == 1.0
    ensures Mul(RopeEven(m, raw, pos, i), RopeEven(m, raw, pos, i)) +
              Mul(RopeOdd(m, raw, pos, i), RopeOdd(m, raw, pos, i))
         == Mul(At(raw, 2 * i), At(raw, 2 * i)) + Mul(At(raw, 2 * i + 1), At(raw, 2 * i + 1))
  {
    hide At, Mul, PairCross;
    var a, b, c, s := At(raw, 2 * i), At(raw, 2 * i + 1), m.cosine(pos, i), m.sine(pos, i);
    Commute(s, c);
    PairTurn(a, b, a, b, c, s, c, s, 1.0, 0.0);
    OneZero(PairDot(a, b, a, b), PairCross(a, b, a, b));
  }

  lemma OneZero(x: real, y: real)
    ensures Mul(1.0, x) == x && Mul(0.0, y) == 0.0
  {
  }

  lemma EvensLength(m: Layer, raw: Vec, pos: nat, n: nat)
    ensures |Evens(m, raw, pos, n)| == n
  {
  }

  /** A rotation keeps the norm of the row, pair by pair. */
  lemma RopeKeepsNorm(m: Layer, raw: Vec, pos: nat)
    requires m.ropeDim % 2 == 0 && OnCircle(m, pos, m.ropeDim / 2)
    ensures SquareSum(Rope(m, raw, pos), m.ropeDim) == SquareSum(raw, m.ropeDim)
  {
    var half := m.ropeDim / 2;
    assert half + half == m.ropeDim;
    RopeHalves(m, raw, pos, half);
    hide Evens, Odds, Rope, OnCircle, SquareSum;
    PairNorms(m, raw, pos, half, half);
    EvensLength(m, raw, pos, half);
    SquareSumConcat(Evens(m, raw, pos, half), Odds(m, raw, pos, half), half, half);
  }

  // ---------------------------------------------------------------- normalised rows

  lemma {:induction false} SquareSumScaled(x: Vec, u: Vec, c: real, n: nat)
    requires forall i: nat | i < n :: At(u, i) == Mul(At(x, i), c)
    ensures SquareSum(u, n) == SquareSum(x, n) * (c * c)
  {
    if n > 0 {
      SquareSumScaled(x, u, c, n - 1);
      var a, s, k := At(x, n - 1), SquareSum(x, n - 1), c * c;
      assert (a * c) * (a * c) == a * a * k;
      assert (s + a * a) * k == s * k + a * a * k;
    }
  }

  /** Normalisation: entry by entry the weight times a row `u` in the direction of `x` whose square sum, times the
      mean square `v`, is that of `x`; with no `eps` the mean square of `u` is one. */
  lemma RmsNormMeaning(m: Layer, x: Vec, weight: Vec, n: nat, v: real) returns (u: Vec, c: real)
    requires n > 0 && v == Div(SquareSum(x, n), n as real) + m.eps > 0.0
    requires m.invSqrt(v) > 0.0 && m.invSqrt(v) * m.invSqrt(v) * v == 1.0
    ensures |u| == n && SquareSum(u, n) * v == SquareSum(x, n)
    ensures m.eps == 0.0 ==> SquareSum(u, n) == n as real
    ensures forall i: nat | i < n :: RmsNorm(m, x, weight, n)[i] == Mul(u[i], At(weight, i))
    ensures c > 0.0 && forall i: nat | i < n :: u[i] == Mul(At(x, i), c)
  {
    c := m.invSqrt(v);
    u := seq(n, i requires 0 <= i => Mul(At(x, i), m.invSqrt(v)));
    hide SquareSum, Mul;
    SquareSumScaled(x, u, c, n);
    Unit(SquareSum(x, n), SquareSum(u, n), n as real, c, v, m.eps);
  }

  lemma Unit(sum: real, square: real, k: real, c: real, v: real, eps: real)
    requires k > 0.0 && v == Div(sum, k) + eps && c * c * v == 1.0 && square == sum * (c * c)
    ensures square * v == sum && (eps == 0.0 ==> square == k)
  {
    var cc := c * c;
    assert sum * cc * v == sum * (cc * v);
    if eps == 0.0 {
      assert sum / k * k == sum;
      assert v * k * cc == k * (cc * v);
    }
  }

  // ---------------------------------------------------------------- the heads tile the projections

  /** Block `h` of the query projection is the query of head `h` before rotation. */
  lemma QueryBlocks(m: Layer, x: Vec, h: nat, i: nat)
    requires h < m.heads && i < m.QueryDim()
    ensures At(MatVec(m.qProj, x, m.hidden, m.heads * m.QueryDim()), Flat(h, i, m.QueryDim())) ==
            (QueryNope(m, x, h) + QueryRaw(m, x, h))[i]
  {
    FlatInRange(h, i, m.heads, m.QueryDim());
    hide Dot, Row, Flat;
  }

  /** Block `h` of the expanded latent is the unrotated key of head `h` followed by its value. */
  lemma KvBlocks(m: Layer, latent: Vec, h: nat, i: nat)
    requires h < m.heads && i < m.KvDim()
    ensures At(MatVec(m.kvB, latent, m.rank, m.heads * m.KvDim()), Flat(h, i, m.KvDim())) ==
            (KeyNope(m, latent, h) + Value(m, latent, h))[i]
  {
    FlatInRange(h, i, m.heads, m.KvDim());
    hide Dot, Flat;
  }

  /** Entry `o` of a projected row: every head entry times its column of the output matrix. */
  lemma HeadBlocks(heads: seq<Vec>, dim: nat, h: nat, d: nat)
    requires h < |heads| && d < dim
    ensures At(Concat(heads, dim), Flat(h, d, dim)) == At(heads[h], d)
  {
    FlatInRange(h, d, |heads|, dim);
  }
}
