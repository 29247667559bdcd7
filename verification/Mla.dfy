/** Multi-head latent attention as mathematics over the reals: the causal reference, the absorbed form that
    works in the latent space, and the proof that they are the same function of the input history. */
module Mla {
  import opened Indexing
  import opened Vectors

  /** Shape, weights and the transcendental functions of one attention layer.  The bf16 weights appear
      already expanded; `exp`, the inverse square root and the rotary angles stay uninterpreted. */
  datatype Layer = Layer(
    hidden: nat, heads: nat, nope: nat, ropeDim: nat, valueDim: nat, rank: nat,
    theta: real, eps: real,
    qProj: seq<Vec>, kvA: seq<Vec>, kvNorm: Vec, kvB: seq<Vec>, oProj: seq<Vec>,
    exp: real -> real, invSqrt: real -> real, cosine: (nat, nat) -> real, sine: (nat, nat) -> real)
  {
    function QueryDim(): nat { nope + ropeDim }
    function KvDim(): nat { nope + valueDim }
    /** A raw score divided by the square root of the query width. */
    function Scaled(dot: real): real { Mul(dot, invSqrt(QueryDim() as real)) }

    /** The shape test that every entry point repeats. */
    predicate Accepted() {
      hidden > 0 && heads > 0 && nope > 0 && ropeDim > 0 && ropeDim % 2 == 0 && valueDim > 0 && rank > 0 && theta > 0.0
    }
  }

  // ---------------------------------------------------------------- projections of one input row

  function SquareSum(x: Vec, n: nat): real {
    if n == 0 then 0.0 else SquareSum(x, n - 1) + Mul(At(x, n - 1), At(x, n - 1))
  }

  function RmsNorm(m: Layer, x: Vec, weight: Vec, n: nat): Vec {
    if n == 0 then []
    else
      var inv := m.invSqrt(Div(SquareSum(x, n), n as real) + m.eps);
      seq(n, i requires 0 <= i => Mul(Mul(At(x, i), inv), At(weight, i)))
  }

  function RopeEven(m: Layer, raw: Vec, pos: nat, i: nat): real {
    Mul(At(raw, 2 * i), m.cosine(pos, i)) - Mul(At(raw, 2 * i + 1), m.sine(pos, i))
  }

  function RopeOdd(m: Layer, raw: Vec, pos: nat, i: nat): real {
    Mul(At(raw, 2 * i + 1), m.cosine(pos, i)) + Mul(At(raw, 2 * i), m.sine(pos, i))
  }

  /** Rotary embedding of an interleaved projection: first the rotated even parts, then the odd parts. */
  function RopeAt(m: Layer, raw: Vec, pos: nat, i: nat): real {
    var half := m.ropeDim / 2;
    if i < half then RopeEven(m, raw, pos, i) else RopeOdd(m, raw, pos, i - half)
  }

  function Rope(m: Layer, raw: Vec, pos: nat): Vec {
    seq(m.ropeDim, i requires 0 <= i => RopeAt(m, raw, pos, i))
  }

  function KvA(m: Layer, x: Vec): Vec {
    MatVec(m.kvA, x, m.hidden, m.rank + m.ropeDim)
  }

  /** The compressed row kept for one token: the normalised latent. */
  function Latent(m: Layer, x: Vec): Vec {
    RmsNorm(m, KvA(m, x), m.kvNorm, m.rank)
  }

  /** The compressed row kept for one token: the rotated shared key part. */
  function RopeKey(m: Layer, x: Vec, pos: nat): Vec {
    Rope(m, KvA(m, x)[m.rank..], pos)
  }

  function QueryNope(m: Layer, x: Vec, h: nat): Vec {
    seq(m.nope, d requires 0 <= d => Dot(Row(m.qProj, Flat(h, d, m.QueryDim())), x, m.hidden))
  }

  function QueryRaw(m: Layer, x: Vec, h: nat): Vec {
    seq(m.ropeDim, d requires 0 <= d => Dot(Row(m.qProj, Flat(h, m.nope + d, m.QueryDim())), x, m.hidden))
  }

  function QueryRope(m: Layer, x: Vec, pos: nat, h: nat): Vec {
    Rope(m, QueryRaw(m, x, h), pos)
  }

  function Query(m: Layer, x: Vec, pos: nat, h: nat): Vec {
    QueryNope(m, x, h) + QueryRope(m, x, pos, h)
  }

  /** Rows of `kvB` that expand a latent into the non-rotated key of head `h`. */
  function KeyRows(m: Layer, h: nat): seq<Vec> {
    seq(m.nope, d requires 0 <= d => Row(m.kvB, Flat(h, d, m.KvDim())))
  }

  function ValueRows(m: Layer, h: nat): seq<Vec> {
    seq(m.valueDim, d requires 0 <= d => Row(m.kvB, Flat(h, m.nope + d, m.KvDim())))
  }

  function KeyNope(m: Layer, latent: Vec, h: nat): Vec {
    MatVec(KeyRows(m, h), latent, m.rank, m.nope)
  }

  function Value(m: Layer, latent: Vec, h: nat): Vec {
    MatVec(ValueRows(m, h), latent, m.rank, m.valueDim)
  }

  // ---------------------------------------------------------------- softmax mixing

  function MaxScore(s: Vec, n: nat): real
    requires n > 0
  {
    if n == 1 then At(s, 0)
    else
      var best := MaxScore(s, n - 1);
      if At(s, n - 1) > best then At(s, n - 1) else best
  }

  /** The exponentials of the scores, shifted by the largest one. */
  function Shifted(exp: real -> real, s: Vec, n: nat): Vec
    requires n > 0
  {
    seq(n, j requires 0 <= j => exp(At(s, j) - MaxScore(s, n)))
  }

  lemma {:induction false} TotalPositive(v: Vec, n: nat)
    requires 0 < n <= |v| && forall j | 0 <= j < |v| :: v[j] > 0.0
    ensures Total(v, n) > 0.0
  {
    if n > 1 {
      TotalPositive(v, n - 1);
    }
  }

  /** With a positive exponential the softmax never divides by zero. */
  lemma DenominatorPositive(exp: real -> real, s: Vec, n: nat)
    requires n > 0 && forall x :: exp(x) > 0.0
    ensures Total(Shifted(exp, s, n), n) > 0.0
  {
    TotalPositive(Shifted(exp, s, n), n);
  }

  function Softmax(exp: real -> real, s: Vec, n: nat): (p: Vec)
    requires n > 0
    ensures |p| == n
  {
    var e := Shifted(exp, s, n);
    seq(n, j requires 0 <= j => Div(At(e, j), Total(e, n)))
  }

  /** One head: the rows of `values` mixed by the softmax of the scores. */
  function Mixed(exp: real -> real, s: Vec, values: seq<Vec>, n: nat, dim: nat): Vec
    requires n > 0
  {
    var p := Softmax(exp, s, n);
    seq(dim, d requires 0 <= d => Comb(p, values, n, d))
  }

  function Scores(m: Layer, q: Vec, keys: seq<Vec>): Vec {
    seq(|keys|, j requires 0 <= j => m.Scaled(Dot(q, Row(keys, j), m.QueryDim())))
  }

  lemma ScoreAt(m: Layer, q: Vec, keys: seq<Vec>, j: nat)
    requires j < |keys|
    ensures Scores(m, q, keys)[j] == m.Scaled(Dot(q, Row(keys, j), m.nope + m.ropeDim))
  {
  }

  /** Attention of one head over explicit keys and values. */
  function AttendHead(m: Layer, q: Vec, keys: seq<Vec>, values: seq<Vec>): (out: Vec)
    requires |keys| > 0
    ensures |out| == m.valueDim
  {
    Mixed(m.exp, Scores(m, q, keys), values, |keys|, m.valueDim)
  }

  /** The head outputs side by side, head `h` in columns `h * valueDim ..`. */
  function Concat(heads: seq<Vec>, dim: nat): Vec {
    if dim == 0 then []
    else seq(|heads| * dim, i requires 0 <= i => At(Row(heads, i / dim), i % dim))
  }

  function Project(m: Layer, heads: seq<Vec>): Vec {
    MatVec(m.oProj, Concat(heads, m.valueDim), m.heads * m.valueDim, m.hidden)
  }

  // ---------------------------------------------------------------- the causal reference

  function KeyRow(m: Layer, x: Vec, pos: nat, h: nat): Vec {
    KeyNope(m, Latent(m, x), h) + RopeKey(m, x, pos)
  }

  function ValueRow(m: Layer, x: Vec, h: nat): Vec {
    Value(m, Latent(m, x), h)
  }

  function KeysOf(m: Layer, xs: seq<Vec>, h: nat): seq<Vec> {
    seq(|xs|, j requires 0 <= j < |xs| => KeyRow(m, xs[j], j, h))
  }

  function ValuesOf(m: Layer, xs: seq<Vec>, h: nat): seq<Vec> {
    seq(|xs|, j requires 0 <= j < |xs| => ValueRow(m, xs[j], h))
  }

  function CausalHead(m: Layer, xs: seq<Vec>, t: nat, h: nat): (out: Vec)
    requires t < |xs|
    ensures |out| == m.valueDim
  {
    AttendHead(m, Query(m, xs[t], t, h), KeysOf(m, xs[..t + 1], h), ValuesOf(m, xs[..t + 1], h))
  }

  function CausalHeads(m: Layer, xs: seq<Vec>, t: nat): seq<Vec>
    requires t < |xs|
  {
    seq(m.heads, h requires 0 <= h => CausalHead(m, xs, t, h))
  }

  /** Row `t` of causal self-attention over the inputs `xs`: token `t` attends to itself and every earlier token. */
  function Causal(m: Layer, xs: seq<Vec>, t: nat): Vec
    requires t < |xs|
  {
    Project(m, CausalHeads(m, xs, t))
  }

  // ---------------------------------------------------------------- the absorbed form

  /** The query folded through the key half of `kvB`: it scores latents directly. */
  function FoldedQuery(m: Layer, q: Vec, h: nat): Vec {
    seq(m.rank, r requires 0 <= r => Comb(q, KeyRows(m, h), m.nope, r))
  }

  function LatentScores(m: Layer, qLat: Vec, qRope: Vec, latents: seq<Vec>, ropes: seq<Vec>): Vec {
    seq(|latents|, j requires 0 <= j =>
      m.Scaled(Dot(qLat, Row(latents, j), m.rank) + Dot(qRope, Row(ropes, j), m.ropeDim)))
  }

  function FoldedScores(m: Layer, x: Vec, pos: nat, h: nat, latents: seq<Vec>, ropes: seq<Vec>): Vec {
    LatentScores(m, FoldedQuery(m, QueryNope(m, x, h), h), QueryRope(m, x, pos, h), latents, ropes)
  }

  function LatentMix(m: Layer, x: Vec, pos: nat, h: nat, latents: seq<Vec>, ropes: seq<Vec>): Vec
    requires |latents| > 0
  {
    Mixed(m.exp, FoldedScores(m, x, pos, h, latents, ropes), latents, |latents|, m.rank)
  }

  function AbsorbedHead(m: Layer, x: Vec, pos: nat, h: nat, latents: seq<Vec>, ropes: seq<Vec>): Vec
    requires |latents| > 0
  {
    MatVec(ValueRows(m, h), LatentMix(m, x, pos, h, latents, ropes), m.rank, m.valueDim)
  }

  function AbsorbedHeads(m: Layer, x: Vec, pos: nat, latents: seq<Vec>, ropes: seq<Vec>): seq<Vec>
    requires |latents| > 0
  {
    seq(m.heads, h requires 0 <= h => AbsorbedHead(m, x, pos, h, latents, ropes))
  }

  /** What compressed decode computes for input `x` over the compressed rows of the history, the row of `x` included. */
  function Absorbed(m: Layer, latents: seq<Vec>, ropes: seq<Vec>, x: Vec): Vec {
    if |latents| == 0 then []
    else Project(m, AbsorbedHeads(m, x, |latents| - 1, latents, ropes))
  }

  function Latents(m: Layer, xs: seq<Vec>): seq<Vec> {
    seq(|xs|, j requires 0 <= j < |xs| => Latent(m, xs[j]))
  }

  function RopeKeys(m: Layer, xs: seq<Vec>): seq<Vec> {
    seq(|xs|, j requires 0 <= j < |xs| => RopeKey(m, xs[j], j))
  }

  // ---------------------------------------------------------------- absorbed = causal

  /** Folding the query through `kvB` scores a latent exactly as the expanded key does. */
  lemma FoldedScore(m: Layer, q: Vec, latent: Vec, h: nat)
    ensures Dot(FoldedQuery(m, q, h), latent, m.rank) == Dot(q, KeyNope(m, latent, h), m.nope)
  {
    var rows := KeyRows(m, h);
    DotOfComb(FoldedQuery(m, q, h), q, rows, latent, m.nope, m.rank);
    CombDotsIsDot(q, rows, latent, KeyNope(m, latent, h), m.nope, m.rank);
  }

  lemma KeyScoreSplits(m: Layer, qNope: Vec, qRope: Vec, h: nat, latent: Vec, rope: Vec)
    requires |qNope| == m.nope
    ensures Dot(qNope, KeyNope(m, latent, h), m.nope) + Dot(qRope, rope, m.ropeDim)
         == Dot(qNope + qRope, KeyNope(m, latent, h) + rope, m.nope + m.ropeDim)
  {
    DotConcat(qNope, KeyNope(m, latent, h), m.nope, qRope, rope, m.ropeDim);
  }

  lemma FoldedScoreOfKey(m: Layer, qNope: Vec, qRope: Vec, h: nat, latent: Vec, rope: Vec)
    requires |qNope| == m.nope
    ensures Dot(FoldedQuery(m, qNope, h), latent, m.rank) + Dot(qRope, rope, m.ropeDim)
         == Dot(qNope + qRope, KeyNope(m, latent, h) + rope, m.nope + m.ropeDim)
  {
    FoldedScore(m, qNope, latent, h);
    KeyScoreSplits(m, qNope, qRope, h, latent, rope);
  }

  lemma LatentScoreAt(m: Layer, qLat: Vec, qRope: Vec, latents: seq<Vec>, ropes: seq<Vec>, j: nat)
    requires j < |latents|
    ensures LatentScores(m, qLat, qRope, latents, ropes)[j]
         == m.Scaled(Dot(qLat, Row(latents, j), m.rank) + Dot(qRope, Row(ropes, j), m.ropeDim))
  {
  }

  lemma LatentScoresAreScores(m: Layer, qLat: Vec, qRope: Vec, q: Vec, latents: seq<Vec>, ropes: seq<Vec>,
                              keys: seq<Vec>)
    requires |latents| == |ropes| == |keys|
    requires forall j | 0 <= j < |keys| ::
      Dot(qLat, latents[j], m.rank) + Dot(qRope, ropes[j], m.ropeDim) == Dot(q, keys[j], m.nope + m.ropeDim)
    ensures LatentScores(m, qLat, qRope, latents, ropes) == Scores(m, q, keys)
  {
    forall j: nat | j < |keys|
      ensures LatentScores(m, qLat, qRope, latents, ropes)[j] == Scores(m, q, keys)[j]
    {
      LatentScoreAt(m, qLat, qRope, latents, ropes, j);
      ScoreAt(m, q, keys, j);
    }
  }

  lemma FoldedScoresAgree(m: Layer, x: Vec, pos: nat, h: nat, latents: seq<Vec>, ropes: seq<Vec>, keys: seq<Vec>)
    requires |latents| == |ropes| == |keys|
    requires forall j | 0 <= j < |keys| :: keys[j] == KeyNope(m, latents[j], h) + ropes[j]
    ensures FoldedScores(m, x, pos, h, latents, ropes) == Scores(m, Query(m, x, pos, h), keys)
  {
    var qNope, qRope := QueryNope(m, x, h), QueryRope(m, x, pos, h);
    forall j | 0 <= j < |keys|
      ensures Dot(FoldedQuery(m, qNope, h), latents[j], m.rank) + Dot(qRope, ropes[j], m.ropeDim)
           == Dot(qNope + qRope, keys[j], m.nope + m.ropeDim)
    {
      FoldedScoreOfKey(m, qNope, qRope, h, latents[j], ropes[j]);
    }
    LatentScoresAreScores(m, FoldedQuery(m, qNope, h), qRope, qNope + qRope, latents, ropes, keys);
  }

  /** Mixing latents and expanding the mix equals expanding every latent and mixing the values. */
  lemma MixThenExpand(m: Layer, s: Vec, latents: seq<Vec>, values: seq<Vec>, h: nat)
    requires |latents| == |values| > 0
    requires forall j | 0 <= j < |values| :: values[j] == Value(m, latents[j], h)
    ensures MatVec(ValueRows(m, h), Mixed(m.exp, s, latents, |latents|, m.rank), m.rank, m.valueDim) ==
            Mixed(m.exp, s, values, |values|, m.valueDim)
  {
    var n := |latents|;
    var p := Softmax(m.exp, s, n);
    var mix := Mixed(m.exp, s, latents, n, m.rank);
    forall d | 0 <= d < m.valueDim
      ensures Dot(Row(ValueRows(m, h), d), mix, m.rank) == Comb(p, values, n, d)
    {
      var w := Row(ValueRows(m, h), d);
      DotComm(w, mix, m.rank);
      DotOfComb(mix, p, latents, w, n, m.rank);
      forall j | 0 <= j < n
        ensures At(Row(values, j), d) == Dot(Row(latents, j), w, m.rank)
      {
        DotComm(w, latents[j], m.rank);
      }
      CombDotsIsComb(p, latents, w, values, d, n, m.rank);
    }
  }

  /** Attention in the latent space is attention over the expanded keys and values, whatever the latents hold. */
  lemma AbsorbedHeadIsExpanded(m: Layer, x: Vec, pos: nat, h: nat, latents: seq<Vec>, ropes: seq<Vec>,
                               keys: seq<Vec>, values: seq<Vec>)
    requires |latents| == |ropes| == |keys| == |values| > 0
    requires forall j | 0 <= j < |keys| :: keys[j] == KeyNope(m, latents[j], h) + ropes[j]
    requires forall j | 0 <= j < |values| :: values[j] == Value(m, latents[j], h)
    ensures AbsorbedHead(m, x, pos, h, latents, ropes) == AttendHead(m, Query(m, x, pos, h), keys, values)
  {
    FoldedScoresAgree(m, x, pos, h, latents, ropes, keys);
    MixThenExpand(m, FoldedScores(m, x, pos, h, latents, ropes), latents, values, h);
  }

  /** Main theorem: decoding token `t` from the compressed rows gives row `t` of causal attention. */
  lemma AbsorbedIsCausal(m: Layer, xs: seq<Vec>, t: nat)
    requires t < |xs|
    ensures Absorbed(m, Latents(m, xs[..t + 1]), RopeKeys(m, xs[..t + 1]), xs[t]) == Causal(m, xs, t)
  {
    var hist := xs[..t + 1];
    var latents, ropes := Latents(m, hist), RopeKeys(m, hist);
    forall h: nat | h < m.heads
      ensures AbsorbedHead(m, xs[t], t, h, latents, ropes) == CausalHead(m, xs, t, h)
    {
      AbsorbedHeadIsExpanded(m, xs[t], t, h, latents, ropes, KeysOf(m, hist, h), ValuesOf(m, hist, h));
    }
    assert AbsorbedHeads(m, xs[t], t, latents, ropes) == CausalHeads(m, xs, t);
  }
}
