/** Whole-prompt attention: the materialised prefill, and the head-streaming prefill whose head outputs may
    live in the output buffer itself.  Both compute the same causal rows. */
module MlaPrefill {
  import opened Indexing
  import opened Vectors
  import opened Mla
  import opened MlaLoops
  import opened MlaDecode
  import opened MlaExpanded

  function RowOf(a: array2<real>, t: nat): (row: Vec)
    requires t < a.Length0
    reads a
    ensures |row| == a.Length1 && forall i | 0 <= i < a.Length1 :: row[i] == a[t, i]
  {
    seq(a.Length1, i requires 0 <= i < a.Length1 reads a => a[t, i])
  }

  method WriteRow(a: array2<real>, t: nat, row: Vec)
    requires t < a.Length0 && |row| == a.Length1
    modifies a
    ensures RowOf(a, t) == row
    ensures forall k: nat | k < a.Length0 && k != t :: RowOf(a, k) == old(RowOf(a, k))
  {
    for i := 0 to |row|
      invariant forall k | 0 <= k < i :: a[t, k] == row[k]
      invariant forall k, j | 0 <= k < a.Length0 && k != t && 0 <= j < a.Length1 :: a[k, j] == old(a[k, j])
    {
      a[t, i] := row[i];
    }
    assert RowOf(a, t) == row;
  }

  // ---------------------------------------------------------------- materialised prefill

  function QueryCells(m: Layer, x: Vec, pos: nat): (cells: seq<Vec>)
    ensures |cells| == m.heads
  {
    seq(m.heads, h requires 0 <= h => Query(m, x, pos, h))
  }

  function QueriesOf(m: Layer, xs: seq<Vec>, h: nat): seq<Vec> {
    seq(|xs|, j requires 0 <= j < |xs| => Query(m, xs[j], j, h))
  }

  /** Rows `0 .. t` of the three buffers hold the queries, keys and values of the first `t` inputs. */
  ghost predicate Filled(m: Layer, q: array2<Vec>, k: array2<Vec>, v: array2<Vec>, xs: seq<Vec>, t: nat)
    reads q, k, v
  {
    t <= |xs| && t <= q.Length0 && t <= k.Length0 && t <= v.Length0 && m.heads == q.Length1 == k.Length1 == v.Length1 &&
    (forall h: nat | h < m.heads :: Column(q, h, t) == QueriesOf(m, xs[..t], h)) &&
    (forall h: nat | h < m.heads :: Column(k, h, t) == KeysOf(m, xs[..t], h)) &&
    (forall h: nat | h < m.heads :: Column(v, h, t) == ValuesOf(m, xs[..t], h))
  }

  lemma FilledNext(m: Layer, q: array2<Vec>, k: array2<Vec>, v: array2<Vec>, xs: seq<Vec>, t: nat,
                   qs: seq<seq<Vec>>, ks: seq<seq<Vec>>, vs: seq<seq<Vec>>)
    requires t < |xs| && t < q.Length0 && t < k.Length0 && t < v.Length0
    requires m.heads == q.Length1 == k.Length1 == v.Length1 == |qs| == |ks| == |vs|
    requires forall h: nat | h < m.heads :: qs[h] == QueriesOf(m, xs[..t], h)
    requires forall h: nat | h < m.heads :: ks[h] == KeysOf(m, xs[..t], h)
    requires forall h: nat | h < m.heads :: vs[h] == ValuesOf(m, xs[..t], h)
    requires Stored(q, qs, QueryCells(m, xs[t], t), t, m.heads)
    requires Stored(k, ks, KeyCells(m, xs[t], t), t, m.heads)
    requires Stored(v, vs, ValueCells(m, xs[t]), t, m.heads)
    ensures Filled(m, q, k, v, xs, t + 1)
  {
    hide Query, KeyRow, ValueRow;
    var n, ys := t + 1, xs[..t + 1];
    assert ys == xs[..t] + [xs[t]];
    forall h: nat | h < m.heads
      ensures Column(q, h, n) == QueriesOf(m, ys, h) && Column(k, h, n) == KeysOf(m, ys, h) &&
        Column(v, h, n) == ValuesOf(m, ys, h)
    {
      ColumnsGrow(m, xs[..t], xs[t], h);
      assert QueriesOf(m, ys, h) == QueriesOf(m, xs[..t], h) + [Query(m, xs[t], t, h)];
    }
  }

  /** The projections of one prompt token, split head by head into the three buffers. */
  method FillRow(m: Layer, q: array2<Vec>, k: array2<Vec>, v: array2<Vec>, xs: seq<Vec>, t: nat)
    requires m.ropeDim % 2 == 0 && t < |xs| == q.Length0 == k.Length0 == v.Length0
    requires q != k && q != v && k != v && Filled(m, q, k, v, xs, t)
    modifies q, k, v
    ensures Filled(m, q, k, v, xs, t + 1)
  {
    hide Dot, Latent, RopeKey, KeyNope, Value, Query, Stored, QueriesOf, KeysOf, ValuesOf;
    var x := xs[t];
    var queries := MatVecLoop(x, m.qProj, m.hidden, m.heads * m.QueryDim());
    var qtmp := queries[..];
    var latent, rope := CompressLoop(m, x, t);
    var expanded := MatVecLoop(latent, m.kvB, m.rank, m.heads * m.KvDim());
    var kvtmp := expanded[..];
    ghost var qs, ks, vs := Columns(q, t), Columns(k, t), Columns(v, t);
    ghost var qc, kc, vc := QueryCells(m, x, t), KeyCells(m, x, t), ValueCells(m, x);
    StoredNone(q, qc, t);
    StoredNone(k, kc, t);
    StoredNone(v, vc, t);
    for h := 0 to m.heads
      invariant Stored(q, qs, qc, t, h) && Stored(k, ks, kc, t, h) && Stored(v, vs, vc, t, h)
    {
      var qNope, qRope := QueryLoop(m, x, qtmp, t, h);
      assert qNope + qRope == Query(m, x, t, h) by { QueryParts(m, x, t, h); }
      StoreCell(q, t, h, qNope + qRope, qs, qc);
      var key, value := KeyValueLoop(m, latent, kvtmp, rope, h);
      StoreCell(k, t, h, key, ks, kc);
      StoreCell(v, t, h, value, vs, vc);
    }
    FilledNext(m, q, k, v, xs, t, qs, ks, vs);
  }

  lemma QueryParts(m: Layer, x: Vec, pos: nat, h: nat)
    ensures Query(m, x, pos, h) == QueryNope(m, x, h) + QueryRope(m, x, pos, h)
  {
  }

  /** One output row from the filled buffers. */
  method CausalLoop(m: Layer, q: array2<Vec>, k: array2<Vec>, v: array2<Vec>, xs: seq<Vec>, t: nat) returns (row: Vec)
    requires t < |xs| == q.Length0 == k.Length0 == v.Length0 && Filled(m, q, k, v, xs, |xs|)
    ensures row == Causal(m, xs, t)
  {
    hide AttendHead, Query, KeyRow, ValueRow, Project;
    assert xs[..|xs|] == xs;
    ghost var spec := CausalHeads(m, xs, t);
    var heads: seq<Vec> := [];
    for h := 0 to m.heads
      invariant heads == spec[..h]
    {
      var ho := HeadLoop(m, q[t, h], Column(k, h, t + 1), Column(v, h, t + 1));
      assert q[t, h] == Column(q, h, |xs|)[t] == Query(m, xs[t], t, h);
      assert Column(k, h, t + 1) == Column(k, h, |xs|)[..t + 1] == KeysOf(m, xs[..t + 1], h);
      assert Column(v, h, t + 1) == Column(v, h, |xs|)[..t + 1] == ValuesOf(m, xs[..t + 1], h);
      heads := heads + [ho];
    }
    assert heads == spec;
    row := ProjectLoop(m, heads);
  }

  /** The first pass fills the buffers token by token, the second emits the rows. */
  method PrefillLoop(m: Layer, out: array2<real>, xs: seq<Vec>, q: array2<Vec>, k: array2<Vec>, v: array2<Vec>)
    requires m.ropeDim % 2 == 0 && |xs| == out.Length0 == q.Length0 == k.Length0 == v.Length0
    requires out.Length1 == m.hidden && m.heads == q.Length1 == k.Length1 == v.Length1
    requires q != k && q != v && k != v
    modifies out, q, k, v
    ensures forall t: nat | t < |xs| :: RowOf(out, t) == Causal(m, xs, t)
  {
    hide Causal, Filled;
    FilledNone(m, q, k, v, xs);
    for t := 0 to |xs|
      invariant Filled(m, q, k, v, xs, t)
    {
      FillRow(m, q, k, v, xs, t);
    }
    for t := 0 to |xs|
      invariant Filled(m, q, k, v, xs, |xs|)
      invariant forall j: nat | j < t :: RowOf(out, j) == Causal(m, xs, j)
    {
      var row := CausalLoop(m, q, k, v, xs, t);
      CausalWidth(m, xs, t);
      WriteRow(out, t, row);
    }
  }

  /** `kvl_mla_prefill_bf16` of `ops.c`: every query, key and value is materialised first. */
  method Prefill(m: Layer, out: array2<real>, xs: seq<Vec>) returns (ok: bool)
    requires out.Length0 == |xs| && out.Length1 == m.hidden
    modifies out
    ensures ok <==> |xs| > 0 && m.Accepted()
    ensures !ok ==> unchanged(out)
    ensures ok ==> forall t: nat | t < |xs| :: RowOf(out, t) == Causal(m, xs, t)
  {
    if |xs| == 0 || !m.Accepted() {
      return false;
    }
    hide Causal;
    var q := new Vec[|xs|, m.heads]((_, _) => []);
    var k := new Vec[|xs|, m.heads]((_, _) => []);
    var v := new Vec[|xs|, m.heads]((_, _) => []);
    PrefillLoop(m, out, xs, q, k, v);
    return true;
  }

  lemma FilledNone(m: Layer, q: array2<Vec>, k: array2<Vec>, v: array2<Vec>, xs: seq<Vec>)
    requires m.heads == q.Length1 == k.Length1 == v.Length1
    ensures Filled(m, q, k, v, xs, 0)
  {
  }

  lemma CausalWidth(m: Layer, xs: seq<Vec>, t: nat)
    requires t < |xs|
    ensures |Causal(m, xs, t)| == m.hidden
  {
  }

  // ---------------------------------------------------------------- head-streaming prefill

  /** Scores from a query split into its plain and its rotated part. */
  function SplitScores(m: Layer, q: Vec, qRope: Vec, keys: seq<Vec>, ropes: seq<Vec>): Vec {
    seq(|keys|, j requires 0 <= j =>
      m.Scaled(Dot(q, Row(keys, j), m.nope) + Dot(qRope, Row(ropes, j), m.ropeDim)))
  }

  method SplitScoreLoop(m: Layer, q: Vec, qRope: Vec, keys: seq<Vec>, ropes: seq<Vec>) returns (raw: Vec)
    requires |keys| <= |ropes|
    ensures raw == SplitScores(m, q, qRope, keys, ropes)
  {
    hide Mul, Dot;
    var scores := new real[|keys|];
    for j := 0 to |keys|
      invariant forall k | 0 <= k < j ::
        scores[k] == m.Scaled(Dot(q, keys[k], m.nope) + Dot(qRope, ropes[k], m.ropeDim))
    {
      var dot := DotLoop(q, keys[j], m.nope);
      var rot := DotLoop(qRope, ropes[j], m.ropeDim);
      scores[j] := m.Scaled(dot + rot);
    }
    raw := scores[..];
  }

  /** A split score is the score of the joined query against the joined key, whatever follows the plain part in `q`. */
  lemma SplitScore(m: Layer, q: Vec, qNope: Vec, qRope: Vec, key: Vec, rope: Vec)
    requires |qNope| == |key| == m.nope && forall d: nat | d < m.nope :: At(q, d) == qNope[d]
    ensures Dot(q, key, m.nope) + Dot(qRope, rope, m.ropeDim) == Dot(qNope + qRope, key + rope, m.nope + m.ropeDim)
  {
    DotCongruent(q, qNope, key, key, m.nope);
    DotConcat(qNope, key, m.nope, qRope, rope, m.ropeDim);
  }

  lemma SplitScoresAgree(m: Layer, q: Vec, qNope: Vec, qRope: Vec, nopes: seq<Vec>, ropes: seq<Vec>, keys: seq<Vec>)
    requires |nopes| == |keys| <= |ropes| && |qNope| == m.nope && forall d: nat | d < m.nope :: At(q, d) == qNope[d]
    requires forall j | 0 <= j < |keys| :: |nopes[j]| == m.nope && keys[j] == nopes[j] + ropes[j]
    ensures SplitScores(m, q, qRope, nopes, ropes) == Scores(m, qNope + qRope, keys)
  {
    hide Mul, Dot;
    forall j | 0 <= j < |keys|
      ensures Dot(q, nopes[j], m.nope) + Dot(qRope, ropes[j], m.ropeDim) == Dot(qNope + qRope, keys[j], m.QueryDim())
    {
      SplitScore(m, q, qNope, qRope, nopes[j], ropes[j]);
    }
  }

  /** The values of one head accumulated history row by history row. */
  method ValueAddLoop(p: Vec, values: seq<Vec>, n: nat, dim: nat) returns (mix: Vec)
    ensures mix == seq(dim, d requires 0 <= d => Comb(p, values, n, d))
  {
    hide Mul;
    var acc := new real[dim](_ => 0.0);
    for j := 0 to n
      invariant forall d | 0 <= d < dim :: acc[d] == Comb(p, values, j, d)
    {
      for d := 0 to dim
        invariant forall k | 0 <= k < d :: acc[k] == Comb(p, values, j + 1, k)
        invariant forall k | d <= k < dim :: acc[k] == Comb(p, values, j, k)
      {
        acc[d] := acc[d] + Mul(At(p, j), At(Row(values, j), d));
      }
    }
    mix := acc[..];
  }

  /** What one worker does for token `t` of head `h`. */
  method StreamHeadLoop(m: Layer, xs: seq<Vec>, t: nat, h: nat, nopes: seq<Vec>, ropes: seq<Vec>, values: seq<Vec>)
      returns (ho: Vec)
    requires m.ropeDim % 2 == 0 && t < |xs| && |nopes| == |values| == |ropes| == |xs|
    requires forall j | 0 <= j < |xs| :: nopes[j] == KeyNope(m, Latent(m, xs[j]), h)
    requires forall j | 0 <= j < |xs| :: ropes[j] == RopeKey(m, xs[j], j)
    requires forall j | 0 <= j < |xs| :: values[j] == Value(m, Latent(m, xs[j]), h)
    ensures ho == CausalHead(m, xs, t, h)
  {
    hide Dot, Flat, Mul, RopeAt, Latent, Value, RopeKey, Comb, MaxScore, Shifted, Total;
    var queries := MatVecLoop(xs[t], HeadQueryRows(m, h), m.hidden, m.QueryDim());
    var qtmp := queries[..];
    ghost var qNope := QueryNope(m, xs[t], h);
    HeadQuery(m, xs[t], h);
    var qRope := RopeLoop(m, qtmp[m.nope..], t);
    var raw := SplitScoreLoop(m, qtmp, qRope, nopes[..t + 1], ropes);
    ghost var keys := KeysOf(m, xs[..t + 1], h);
    SplitScoresAgree(m, qtmp, qNope, qRope, nopes[..t + 1], ropes, keys);
    var maxScore := MaxLoop(raw);
    var p := SoftmaxLoop(m.exp, raw, maxScore, t + 1);
    assert values[..t + 1] == ValuesOf(m, xs[..t + 1], h);
    ho := ValueAddLoop(p, values[..t + 1], t + 1, m.valueDim);
  }

  /** The rows of `qProj` that belong to head `h`. */
  function HeadQueryRows(m: Layer, h: nat): seq<Vec> {
    seq(m.QueryDim(), d requires 0 <= d => Row(m.qProj, Flat(h, d, m.QueryDim())))
  }

  lemma HeadQuery(m: Layer, x: Vec, h: nat)
    ensures forall d: nat | d < m.nope ::
      At(MatVec(HeadQueryRows(m, h), x, m.hidden, m.QueryDim()), d) == QueryNope(m, x, h)[d]
    ensures MatVec(HeadQueryRows(m, h), x, m.hidden, m.QueryDim())[m.nope..] == QueryRaw(m, x, h)
  {
    hide Dot, Flat;
  }

  /** In every row before `t` the first `n + 1` head outputs are in place, in the others the first `n`. */
  ghost predicate Streamed(m: Layer, a: array2<real>, xs: seq<Vec>, n: nat, t: nat)
    requires a.Length0 == |xs| && n + 1 <= m.heads
    reads a
  {
    (forall j: nat | j < t && j < |xs| :: HeadsStored(RowOf(a, j), CausalHeads(m, xs, j), n + 1, m.valueDim)) &&
    (forall j: nat | t <= j < |xs| :: HeadsStored(RowOf(a, j), CausalHeads(m, xs, j), n, m.valueDim))
  }

  method StoreHeadInRow(m: Layer, a: array2<real>, xs: seq<Vec>, t: nat, h: nat, ho: Vec)
    requires t < |xs| == a.Length0 && h < m.heads && a.Length1 == m.heads * m.valueDim
    requires ho == CausalHead(m, xs, t, h) && Streamed(m, a, xs, h, t)
    modifies a
    ensures Streamed(m, a, xs, h, t + 1) && OnlyBlock(old(RowOf(a, t)), RowOf(a, t), h, m.valueDim)
    ensures forall j: nat | j < |xs| && j != t :: RowOf(a, j) == old(RowOf(a, j))
  {
    hide CausalHead, HeadsStored, OnlyBlock;
    var row := RowOf(a, t);
    var buf := new real[|row|](i requires 0 <= i < |row| => row[i]);
    assert buf[..] == row;
    StoreHead(buf, ho, CausalHeads(m, xs, t), h, m.valueDim);
    WriteRow(a, t, buf[..]);
    assert forall j: nat | j < |xs| && j != t :: RowOf(a, j) == old(RowOf(a, j));
    assert RowOf(a, t) == buf[..];
  }

  /** The key and value rows of head `h` for every token. */
  method HeadRowsLoop(m: Layer, latents: seq<Vec>, h: nat) returns (nopes: seq<Vec>, values: seq<Vec>)
    ensures |nopes| == |values| == |latents|
    ensures forall j | 0 <= j < |latents| ::
      nopes[j] == KeyNope(m, latents[j], h) && values[j] == Value(m, latents[j], h)
  {
    hide Dot, Flat;
    nopes, values := [], [];
    for j := 0 to |latents|
      invariant |nopes| == |values| == j
      invariant forall k | 0 <= k < j :: nopes[k] == KeyNope(m, latents[k], h) && values[k] == Value(m, latents[k], h)
    {
      var kvtmp := MatVecLoop(latents[j], KeyRows(m, h) + ValueRows(m, h), m.rank, m.KvDim());
      nopes := nopes + [kvtmp[..m.nope]];
      values := values + [kvtmp[m.nope..]];
    }
  }

  /** One head over the whole prompt, written into its columns of the head buffer. */
  method StreamHead(m: Layer, a: array2<real>, xs: seq<Vec>, latents: seq<Vec>, ropes: seq<Vec>, h: nat)
    requires m.ropeDim % 2 == 0 && |xs| == a.Length0 && h < m.heads && a.Length1 == m.heads * m.valueDim
    requires latents == Latents(m, xs) && ropes == RopeKeys(m, xs)
    requires Streamed(m, a, xs, h, 0)
    modifies a
    ensures Streamed(m, a, xs, h, |xs|)
    ensures forall t: nat | t < |xs| :: OnlyBlock(old(RowOf(a, t)), RowOf(a, t), h, m.valueDim)
  {
    hide CausalHead, KeyNope, Value, Latent, RopeKey, Streamed, OnlyBlock;
    var nopes, values := HeadRowsLoop(m, latents, h);
    for t := 0 to |xs|
      invariant Streamed(m, a, xs, h, t)
      invariant forall j: nat | j < t :: OnlyBlock(old(RowOf(a, j)), RowOf(a, j), h, m.valueDim)
      invariant forall j: nat | t <= j < |xs| :: RowOf(a, j) == old(RowOf(a, j))
    {
      var ho := StreamHeadLoop(m, xs, t, h, nopes, ropes, values);
      StoreHeadInRow(m, a, xs, t, h, ho);
    }
  }

  /** Every row of the head buffer from `t` on holds all its head outputs, row by row as the projection reads them. */
  ghost predicate HeadsReady(m: Layer, a: array2<real>, xs: seq<Vec>, t: nat)
    requires a.Length0 == |xs|
    reads a
  {
    forall j: nat | t <= j < |xs| :: RowOf(a, j) == Concat(CausalHeads(m, xs, j), m.valueDim)
  }

  method StreamHeads(m: Layer, a: array2<real>, xs: seq<Vec>, latents: seq<Vec>, ropes: seq<Vec>)
    requires m.Accepted() && |xs| == a.Length0 && a.Length1 == m.heads * m.valueDim
    requires latents == Latents(m, xs) && ropes == RopeKeys(m, xs)
    modifies a
    ensures HeadsReady(m, a, xs, 0)
  {
    hide CausalHead, Latents, RopeKeys, Concat;
    for h := 0 to m.heads
      invariant forall j: nat | j < |xs| :: HeadsStored(RowOf(a, j), CausalHeads(m, xs, j), h, m.valueDim)
    {
      StreamHead(m, a, xs, latents, ropes, h);
    }
    forall j: nat | j < |xs|
      ensures RowOf(a, j) == Concat(CausalHeads(m, xs, j), m.valueDim)
    {
      FlatIsConcat(RowOf(a, j), CausalHeads(m, xs, j), m.valueDim);
    }
  }

  /** The projection pass.  `a` may be `out`: row `t` of the head buffer is read before row `t` of the output
      is written over it, and later rows are still head outputs. */
  method ProjectRows(m: Layer, out: array2<real>, a: array2<real>, xs: seq<Vec>)
    requires |xs| == a.Length0 == out.Length0 && a.Length1 == m.heads * m.valueDim && out.Length1 == m.hidden
    requires HeadsReady(m, a, xs, 0)
    modifies out
    ensures forall t: nat | t < |xs| :: RowOf(out, t) == Causal(m, xs, t)
  {
    hide CausalHead, Concat, Dot;
    for t := 0 to |xs|
      invariant HeadsReady(m, a, xs, t)
      invariant forall j: nat | j < t :: RowOf(out, j) == Causal(m, xs, j)
    {
      var headTmp := RowOf(a, t);
      var row := MatVecLoop(headTmp, m.oProj, m.heads * m.valueDim, m.hidden);
      WriteRow(out, t, row[..]);
    }
  }

  /** `kvl_mla_prefill_bf16` of `mla_prefill_streaming.c`.  When the heads are as wide as the model, the head
      outputs are kept in `out` itself. */
  method StreamingPrefill(m: Layer, out: array2<real>, xs: seq<Vec>) returns (ok: bool)
    requires out.Length0 == |xs| && out.Length1 == m.hidden
    modifies out
    ensures ok <==> |xs| > 0 && m.Accepted()
    ensures !ok ==> unchanged(out)
    ensures ok ==> forall t: nat | t < |xs| :: RowOf(out, t) == Causal(m, xs, t)
  {
    if |xs| == 0 || !m.Accepted() {
      return false;
    }
    hide Causal, HeadsReady, Latent, RopeKey;
    var latents, ropes := [], [];
    for t := 0 to |xs|
      invariant latents == Latents(m, xs[..t]) && ropes == RopeKeys(m, xs[..t])
    {
      var latent, rope := CompressLoop(m, xs[t], t);
      latents, ropes := latents + [latent], ropes + [rope];
    }
    assert xs[..|xs|] == xs;
    var headSeq := out;
    if m.heads * m.valueDim != m.hidden {
      headSeq := new real[|xs|, m.heads * m.valueDim]((_, _) => 0.0);
    }
    StreamHeads(m, headSeq, xs, latents, ropes);
    ProjectRows(m, out, headSeq, xs);
    return true;
  }
}
