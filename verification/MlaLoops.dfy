/** The scratch-buffer loops that every attention kernel repeats, each proved against its formula. */
module MlaLoops {
  import opened Indexing
  import opened Vectors
  import opened Mla
  import opened AttentionLaws

  /** A flat buffer whose head blocks are the given rows is their concatenation. */
  lemma FlatIsConcat(buf: Vec, heads: seq<Vec>, dim: nat)
    requires dim > 0 && |buf| == |heads| * dim
    requires forall h: nat, d: nat | h < |heads| && d < dim :: At(buf, Flat(h, d, dim)) == At(heads[h], d)
    ensures buf == Concat(heads, dim)
  {
    var cat := Concat(heads, dim);
    forall i: nat | i < |buf|
      ensures buf[i] == cat[i]
    {
      BlockOf(i, |heads|, dim);
      var h, d := i / dim, i % dim;
      assert cat[i] == At(Row(heads, h), d);
      hide Concat;
      assert At(buf, Flat(h, d, dim)) == At(heads[h], d);
    }
  }

  method InverseRms(m: Layer, x: Vec, n: nat) returns (inv: real)
    requires n > 0
    ensures inv == m.invSqrt(Div(SquareSum(x, n), n as real) + m.eps)
  {
    hide Mul, Div;
    var ms := 0.0;
    for i := 0 to n
      invariant ms == SquareSum(x, i)
    {
      ms := ms + Mul(At(x, i), At(x, i));
    }
    inv := m.invSqrt(Div(ms, n as real) + m.eps);
  }

  method ScaleLoop(x: Vec, inv: real, weight: Vec, n: nat) returns (y: Vec)
    ensures y == seq(n, i requires 0 <= i => Mul(Mul(At(x, i), inv), At(weight, i)))
  {
    hide Mul;
    var buf := new real[n];
    for i := 0 to n
      invariant forall k | 0 <= k < i :: buf[k] == Mul(Mul(At(x, k), inv), At(weight, k))
    {
      buf[i] := Mul(Mul(At(x, i), inv), At(weight, i));
    }
    y := buf[..];
  }

  /** `kvl_rmsnorm_bf16`. */
  method RmsNormLoop(m: Layer, x: Vec, weight: Vec, n: nat) returns (y: Vec)
    ensures y == RmsNorm(m, x, weight, n)
  {
    hide Mul, Div;
    if n == 0 {
      return [];
    }
    var inv := InverseRms(m, x, n);
    y := ScaleLoop(x, inv, weight, n);
  }

  /** `rope_interleaved`: pair `i` is written to slots `i` and `half + i`. */
  method RopeLoop(m: Layer, raw: Vec, pos: nat) returns (dst: Vec)
    requires m.ropeDim % 2 == 0
    ensures dst == Rope(m, raw, pos)
  {
    hide RopeEven, RopeOdd;
    var half := m.ropeDim / 2;
    var buf := new real[m.ropeDim];
    for i := 0 to half
      invariant forall k | 0 <= k < i :: buf[k] == RopeEven(m, raw, pos, k)
      invariant forall k | half <= k < half + i :: buf[k] == RopeOdd(m, raw, pos, k - half)
    {
      buf[i] := RopeEven(m, raw, pos, i);
      buf[half + i] := RopeOdd(m, raw, pos, i);
    }
    dst := buf[..];
  }

  /** The score exponentials of one head and their sum. */
  method ShiftLoop(exp: real -> real, raw: Vec, maxScore: real, n: nat) returns (scores: Vec, denom: real)
    requires 0 < n == |raw| && maxScore == MaxScore(raw, n)
    ensures scores == Shifted(exp, raw, n) && denom == Total(scores, n)
  {
    hide MaxScore;
    var buf := new real[n];
    denom := 0.0;
    ghost var e := Shifted(exp, raw, n);
    assert forall j | 0 <= j < n :: e[j] == exp(raw[j] - maxScore);
    hide Shifted;
    for j := 0 to n
      invariant forall k | 0 <= k < j :: buf[k] == e[k]
      invariant denom == Total(e, j)
    {
      buf[j] := exp(raw[j] - maxScore);
      denom := denom + buf[j];
    }
    scores := buf[..];
    assert scores == e;
  }

  method NormalizeLoop(scores: Vec, denom: real, n: nat) returns (p: Vec)
    requires n == |scores|
    ensures p == seq(n, j requires 0 <= j => Div(At(scores, j), denom))
  {
    hide Div;
    var buf := new real[n];
    for j := 0 to n
      invariant forall k | 0 <= k < j :: buf[k] == Div(scores[k], denom)
    {
      buf[j] := Div(scores[j], denom);
    }
    p := buf[..];
  }

  method SoftmaxLoop(exp: real -> real, raw: Vec, maxScore: real, n: nat) returns (p: Vec)
    requires 0 < n == |raw| && maxScore == MaxScore(raw, n)
    ensures p == Softmax(exp, raw, n) && (Positive(exp) && Multiplicative(exp) ==> Weighs(exp, raw, p, n))
  {
    hide Div, Positive, Multiplicative, Weighs;
    var scores, denom := ShiftLoop(exp, raw, maxScore, n);
    p := NormalizeLoop(scores, denom, n);
    if Positive(exp) && Multiplicative(exp) {
      SoftmaxWeighs(exp, raw, n);
    }
  }

  /** The weighted sum over the history, one output entry at a time. */
  method MixLoop(p: Vec, values: seq<Vec>, n: nat, dim: nat) returns (mix: Vec)
    ensures mix == seq(dim, d requires 0 <= d => Comb(p, values, n, d))
  {
    var buf := new real[dim];
    for d := 0 to dim
      invariant forall k | 0 <= k < d :: buf[k] == Comb(p, values, n, k)
    {
      var acc := 0.0;
      for j := 0 to n
        invariant acc == Comb(p, values, j, d)
      {
        acc := acc + Mul(At(p, j), At(Row(values, j), d));
      }
      buf[d] := acc;
    }
    mix := buf[..];
  }

  /** Scores against explicit keys. */
  method ScoreLoop(m: Layer, q: Vec, keys: seq<Vec>) returns (raw: Vec)
    ensures raw == Scores(m, q, keys)
  {
    hide Mul, Dot;
    var scores := new real[|keys|];
    for j := 0 to |keys|
      invariant forall k | 0 <= k < j :: scores[k] == m.Scaled(Dot(q, keys[k], m.QueryDim()))
    {
      var dot := DotLoop(q, keys[j], m.QueryDim());
      scores[j] := m.Scaled(dot);
    }
    raw := scores[..];
  }

  /** The running maximum; `-INFINITY` is the maximum of no score. */
  method MaxLoop(raw: Vec) returns (maxScore: real)
    requires |raw| > 0
    ensures maxScore == MaxScore(raw, |raw|)
  {
    maxScore := 0.0;
    for j := 0 to |raw|
      invariant j > 0 ==> maxScore == MaxScore(raw, j)
    {
      if j == 0 || raw[j] > maxScore {
        maxScore := raw[j];
      }
    }
  }

  method DotLoop(a: Vec, b: Vec, n: nat) returns (dot: real)
    ensures dot == Dot(a, b, n)
  {
    dot := 0.0;
    for i := 0 to n
      invariant dot == Dot(a, b, i)
    {
      dot := dot + Mul(At(a, i), At(b, i));
    }
  }

  /** Softmax of the raw scores, then the mix of the value rows. */
  method WeighLoop(exp: real -> real, raw: Vec, values: seq<Vec>, dim: nat) returns (mix: Vec)
    requires |raw| > 0
    ensures mix == Mixed(exp, raw, values, |raw|, dim)
    ensures Positive(exp) && Multiplicative(exp) ==>
      exists p :: Weighs(exp, raw, p, |raw|) && forall d: nat | d < dim :: mix[d] == Comb(p, values, |raw|, d)
  {
    hide Positive, Multiplicative, Weighs, Softmax;
    var maxScore := MaxLoop(raw);
    var p := SoftmaxLoop(exp, raw, maxScore, |raw|);
    mix := MixLoop(p, values, |raw|, dim);
  }

  /** Attention of one head over explicit keys and values, as the kernels compute it. */
  method HeadLoop(m: Layer, q: Vec, keys: seq<Vec>, values: seq<Vec>) returns (ho: Vec)
    requires |keys| > 0
    ensures ho == AttendHead(m, q, keys, values)
    ensures Positive(m.exp) && Multiplicative(m.exp) ==> Attends(m, q, keys, values, ho)
  {
    hide Attends, Positive, Multiplicative, Weighs;
    var raw := ScoreLoop(m, q, keys);
    ho := WeighLoop(m.exp, raw, values, m.valueDim);
    if Positive(m.exp) && Multiplicative(m.exp) {
      HeadAttends(m, q, keys, values);
    }
  }

  /** The first `n` head blocks of a flat buffer hold the first `n` rows of `heads`. */
  ghost predicate HeadsStored(buf: Vec, heads: seq<Vec>, n: nat, dim: nat)
    requires n <= |heads|
  {
    forall h: nat, d: nat | h < n && d < dim :: At(buf, Flat(h, d, dim)) == At(heads[h], d)
  }

  /** Outside block `h` nothing changed. */
  ghost predicate OnlyBlock(was: Vec, now: Vec, h: nat, dim: nat) {
    |now| == |was| && forall i | 0 <= i < |was| && !(h * dim <= i < h * dim + dim) :: now[i] == was[i]
  }

  /** Write head `h` into its block of the flat output buffer. */
  method StoreHead(buf: array<real>, ho: Vec, ghost heads: seq<Vec>, h: nat, dim: nat)
    requires h < |heads| && ho == heads[h] && buf.Length == |heads| * dim
    requires HeadsStored(buf[..], heads, h, dim)
    modifies buf
    ensures HeadsStored(buf[..], heads, h + 1, dim) && OnlyBlock(old(buf[..]), buf[..], h, dim)
  {
    for d := 0 to dim
      invariant HeadsStored(buf[..], heads, h, dim) && OnlyBlock(old(buf[..]), buf[..], h, dim)
      invariant forall k: nat | k < d :: At(buf[..], Flat(h, k, dim)) == At(ho, k)
    {
      FlatInRange(h, d, |heads|, dim);
      ghost var was := buf[..];
      buf[Flat(h, d, dim)] := At(ho, d);
      forall h': nat, d': nat | d' < dim && (h' != h || d' != d)
        ensures At(buf[..], Flat(h', d', dim)) == At(was, Flat(h', d', dim))
      {
        FlatDistinct(h, d, h', d', dim);
      }
    }
  }

  /** The flat head buffer and its output projection. */
  method ProjectLoop(m: Layer, heads: seq<Vec>) returns (out: Vec)
    requires |heads| == m.heads
    ensures out == Project(m, heads)
  {
    hide Dot, Flat;
    if m.valueDim == 0 {
      var none := MatVecLoop([], m.oProj, m.heads * m.valueDim, m.hidden);
      return none[..];
    }
    var headOut := new real[m.heads * m.valueDim];
    for h := 0 to m.heads
      invariant HeadsStored(headOut[..], heads, h, m.valueDim)
    {
      StoreHead(headOut, heads[h], heads, h, m.valueDim);
    }
    FlatIsConcat(headOut[..], heads, m.valueDim);
    var buf := MatVecLoop(headOut[..], m.oProj, m.heads * m.valueDim, m.hidden);
    out := buf[..];
  }
}
