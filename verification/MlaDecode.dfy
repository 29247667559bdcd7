/** Incremental attention: the compressed ("absorbed") decoder, one token, one block or one prompt at a time. */
module MlaDecode {
  import opened Indexing
  import opened Vectors
  import opened Mla
  import opened MlaLoops
  import opened CompressedState

  type MlaState = State<Vec, Vec>

  /** The tests at the head of `kvl_mla_decode_compressed_bf16`. */
  ghost predicate DecodeAccepted(m: Layer, state: MlaState, position: int)
    reads state
  {
    position == state.len && position < state.capacity && state.rank == m.rank && state.ropeDim == m.ropeDim &&
    m.Accepted()
  }

  /** The live rows are exactly the compressed rows of the inputs `xs`. */
  ghost predicate Holds(m: Layer, state: MlaState, xs: seq<Vec>)
    requires state.Valid()
    reads state, state.latent, state.rope
  {
    state.Latents() == Latents(m, xs) && state.Ropes() == RopeKeys(m, xs)
  }

  method FoldLoop(m: Layer, q: Vec, h: nat) returns (qLat: Vec)
    ensures qLat == FoldedQuery(m, q, h)
  {
    hide Mul, KeyRows, Row, At;
    var rows := KeyRows(m, h);
    var buf := new real[m.rank];
    for r := 0 to m.rank
      invariant forall k | 0 <= k < r :: buf[k] == Comb(q, rows, m.nope, k)
    {
      var acc := 0.0;
      for d := 0 to m.nope
        invariant acc == Comb(q, rows, d, r)
      {
        acc := acc + Mul(At(q, d), At(Row(rows, d), r));
      }
      buf[r] := acc;
    }
    qLat := buf[..];
  }

  method LatentScoreLoop(m: Layer, qLat: Vec, qRope: Vec, latents: seq<Vec>, ropes: seq<Vec>) returns (raw: Vec)
    requires |latents| == |ropes|
    ensures raw == LatentScores(m, qLat, qRope, latents, ropes)
  {
    hide Mul, Dot;
    var scores := new real[|latents|];
    for j := 0 to |latents|
      invariant forall k | 0 <= k < j ::
        scores[k] == m.Scaled(Dot(qLat, latents[k], m.rank) + Dot(qRope, ropes[k], m.ropeDim))
    {
      var dot := DotLoop(qLat, latents[j], m.rank);
      var rot := DotLoop(qRope, ropes[j], m.ropeDim);
      scores[j] := m.Scaled(dot + rot);
    }
    raw := scores[..];
  }

  lemma ProjectedAt(m: Layer, x: Vec, qtmp: Vec, h: nat, d: nat)
    requires h < m.heads && d < m.QueryDim()
    requires qtmp == MatVec(m.qProj, x, m.hidden, m.heads * m.QueryDim())
    ensures At(qtmp, Flat(h, d, m.QueryDim())) == Dot(Row(m.qProj, Flat(h, d, m.QueryDim())), x, m.hidden)
  {
    FlatInRange(h, d, m.heads, m.QueryDim());
  }

  /** The query of head `h` out of the flat projection: the plain part is copied, the rest is rotated. */
  method QueryLoop(m: Layer, x: Vec, qtmp: Vec, pos: nat, h: nat) returns (qNope: Vec, qRope: Vec)
    requires m.ropeDim % 2 == 0 && h < m.heads
    requires qtmp == MatVec(m.qProj, x, m.hidden, m.heads * m.QueryDim())
    ensures qNope == QueryNope(m, x, h) && qRope == QueryRope(m, x, pos, h)
  {
    hide Dot, Flat;
    qNope := seq(m.nope, d requires 0 <= d => At(qtmp, Flat(h, d, m.QueryDim())));
    var raw := seq(m.ropeDim, d requires 0 <= d => At(qtmp, Flat(h, m.nope + d, m.QueryDim())));
    forall d: nat | d < m.nope
      ensures qNope[d] == QueryNope(m, x, h)[d]
    {
      ProjectedAt(m, x, qtmp, h, d);
    }
    forall d: nat | d < m.ropeDim
      ensures raw[d] == QueryRaw(m, x, h)[d]
    {
      ProjectedAt(m, x, qtmp, h, m.nope + d);
    }
    assert raw == QueryRaw(m, x, h);
    qRope := RopeLoop(m, raw, pos);
  }

  /** One head of the compressed decoder: fold, score the latents, mix the latents, expand the mix. */
  method AbsorbedHeadLoop(m: Layer, x: Vec, qtmp: Vec, pos: nat, h: nat, latents: seq<Vec>, ropes: seq<Vec>)
      returns (ho: Vec)
    requires m.Accepted() && h < m.heads && |latents| == |ropes| > 0
    requires qtmp == MatVec(m.qProj, x, m.hidden, m.heads * m.QueryDim())
    ensures ho == AbsorbedHead(m, x, pos, h, latents, ropes)
  {
    hide Dot, Flat;
    var qNope, qRope := QueryLoop(m, x, qtmp, pos, h);
    var qLat := FoldLoop(m, qNope, h);
    var raw := LatentScoreLoop(m, qLat, qRope, latents, ropes);
    var mix := WeighLoop(m.exp, raw, latents, m.rank);
    var buf := MatVecLoop(mix, ValueRows(m, h), m.rank, m.valueDim);
    ho := buf[..];
  }

  method AbsorbedLoop(m: Layer, x: Vec, pos: nat, latents: seq<Vec>, ropes: seq<Vec>) returns (out: Vec)
    requires m.Accepted() && |latents| == |ropes| == pos + 1
    ensures out == Absorbed(m, latents, ropes, x)
  {
    hide Dot, Flat, AbsorbedHead;
    var queries := MatVecLoop(x, m.qProj, m.hidden, m.heads * m.QueryDim());
    var qtmp := queries[..];
    ghost var heads := AbsorbedHeads(m, x, pos, latents, ropes);
    var outs: seq<Vec> := [];
    for h := 0 to m.heads
      invariant outs == heads[..h]
    {
      var ho := AbsorbedHeadLoop(m, x, qtmp, pos, h, latents, ropes);
      outs := outs + [ho];
    }
    assert outs == heads;
    out := ProjectLoop(m, outs);
  }

  /** `kvl_mla_decode_compressed_bf16`.  The row of the new token is stored before any head reads the history. */
  method DecodeCompressed(m: Layer, state: MlaState, x: Vec, position: int) returns (ok: bool, out: Vec)
    requires state.Valid()
    modifies state`len, state.latent, state.rope
    ensures state.Valid()
    ensures ok <==> old(DecodeAccepted(m, state, position))
    ensures !ok ==>
      state.len == old(state.len) && state.Latents() == old(state.Latents()) && state.Ropes() == old(state.Ropes())
    ensures ok ==> state.Latents() == old(state.Latents()) + [Latent(m, x)]
    ensures ok ==> state.Ropes() == old(state.Ropes()) + [RopeKey(m, x, position)]
    ensures ok ==> out == Absorbed(m, state.Latents(), state.Ropes(), x)
  {
    if position != state.len || position < 0 || position >= state.capacity ||
       state.rank != m.rank || state.ropeDim != m.ropeDim || !m.Accepted() {
      return false, [];
    }
    hide Dot, Flat, Absorbed;
    var latent, rope := CompressLoop(m, x, position);
    state.latent[position] := latent;
    state.rope[position] := rope;
    out := AbsorbedLoop(m, x, position, state.latent[..position + 1], state.rope[..position + 1]);
    state.len := position + 1;
    return true, out;
  }

  function RopeKeysFrom(m: Layer, xs: seq<Vec>, start: nat): seq<Vec> {
    seq(|xs|, j requires 0 <= j < |xs| => RopeKey(m, xs[j], start + j))
  }

  /** Output `t` of a block decoded after the rows `latents`, `ropes`: token `t` sees the block up to itself. */
  function BlockOut(m: Layer, latents: seq<Vec>, ropes: seq<Vec>, xs: seq<Vec>, t: nat): Vec
    requires t < |xs|
  {
    Absorbed(m, latents + Latents(m, xs[..t + 1]), ropes + RopeKeysFrom(m, xs[..t + 1], |latents|), xs[t])
  }

  lemma RowsOfSnoc(m: Layer, xs: seq<Vec>, start: nat, t: nat)
    requires t < |xs|
    ensures Latents(m, xs[..t + 1]) == Latents(m, xs[..t]) + [Latent(m, xs[t])]
    ensures RopeKeysFrom(m, xs[..t + 1], start) == RopeKeysFrom(m, xs[..t], start) + [RopeKey(m, xs[t], start + t)]
  {
    hide Latent, RopeKey;
  }

  /** The history after token `t` of a block, and the output over it. */
  lemma NextOut(m: Layer, latents: seq<Vec>, ropes: seq<Vec>, xs: seq<Vec>, t: nat)
    requires t < |xs|
    ensures (latents + Latents(m, xs[..t])) + [Latent(m, xs[t])] == latents + Latents(m, xs[..t + 1])
    ensures (ropes + RopeKeysFrom(m, xs[..t], |latents|)) + [RopeKey(m, xs[t], |latents| + t)] ==
            ropes + RopeKeysFrom(m, xs[..t + 1], |latents|)
    ensures Absorbed(m, latents + Latents(m, xs[..t + 1]), ropes + RopeKeysFrom(m, xs[..t + 1], |latents|), xs[t]) ==
            BlockOut(m, latents, ropes, xs, t)
  {
    hide Absorbed, Latent, RopeKey, Latents, RopeKeysFrom;
    RowsOfSnoc(m, xs, |latents|, t);
  }

  lemma EmptyRows(m: Layer, start: nat)
    ensures Latents(m, []) == [] && RopeKeysFrom(m, [], start) == []
  {
  }

  /** One decode of a block. */
  method DecodeNext(m: Layer, state: MlaState, xs: seq<Vec>, t: nat, position: nat,
                    ghost latents: seq<Vec>, ghost ropes: seq<Vec>) returns (ok: bool, out: Vec)
    requires state.Valid() && t < |xs| && state.len == position == |latents| + t
    requires state.Latents() == latents + Latents(m, xs[..t])
    requires state.Ropes() == ropes + RopeKeysFrom(m, xs[..t], |latents|)
    modifies state`len, state.latent, state.rope
    ensures state.Valid() && (ok <==> old(DecodeAccepted(m, state, position)))
    ensures !ok ==>
      state.len == old(state.len) && state.Latents() == old(state.Latents()) && state.Ropes() == old(state.Ropes())
    ensures ok ==> state.len == position + 1 && out == BlockOut(m, latents, ropes, xs, t)
    ensures ok ==> state.Latents() == latents + Latents(m, xs[..t + 1])
    ensures ok ==> state.Ropes() == ropes + RopeKeysFrom(m, xs[..t + 1], |latents|)
  {
    hide Absorbed, Latent, RopeKey, Latents, RopeKeysFrom, BlockOut;
    ok, out := DecodeCompressed(m, state, xs[t], position);
    NextOut(m, latents, ropes, xs, t);
  }

  /** `kvl_mla_decode_compressed_block_bf16`: consecutive decodes of the rows of one block. */
  method DecodeBlock(m: Layer, state: MlaState, xs: seq<Vec>, start: int) returns (ok: bool, outs: seq<Vec>)
    requires state.Valid()
    modifies state`len, state.latent, state.rope
    ensures state.Valid()
    ensures ok <==> 0 < |xs| <= state.capacity - start && old(DecodeAccepted(m, state, start))
    ensures !ok ==>
      state.len == old(state.len) && state.Latents() == old(state.Latents()) && state.Ropes() == old(state.Ropes())
    ensures ok ==> state.Latents() == old(state.Latents()) + Latents(m, xs)
    ensures ok ==> state.Ropes() == old(state.Ropes()) + RopeKeysFrom(m, xs, start)
    ensures ok ==> |outs| == |xs| && forall t | 0 <= t < |xs| ::
      outs[t] == BlockOut(m, old(state.Latents()), old(state.Ropes()), xs, t)
  {
    if |xs| == 0 || start != state.len || start < 0 || |xs| > state.capacity - start || m.hidden == 0 {
      return false, [];
    }
    hide Absorbed, Latent, RopeKey, Latents, RopeKeysFrom, BlockOut;
    ghost var latents, ropes := state.Latents(), state.Ropes();
    outs := [];
    EmptyRows(m, start);
    assert xs[..0] == [];
    for t := 0 to |xs|
      invariant state.Valid() && state.len == start + t && |outs| == t
      invariant t > 0 ==> old(DecodeAccepted(m, state, start))
      invariant t == 0 ==> state.Latents() == latents && state.Ropes() == ropes
      invariant state.Latents() == latents + Latents(m, xs[..t])
      invariant state.Ropes() == ropes + RopeKeysFrom(m, xs[..t], start)
      invariant forall k | 0 <= k < t :: outs[k] == BlockOut(m, latents, ropes, xs, k)
    {
      var done, out := DecodeNext(m, state, xs, t, start + t, latents, ropes);
      if !done {
        return false, [];
      }
      outs := outs + [out];
    }
    assert xs[..|xs|] == xs;
    return true, outs;
  }

  /** `kvl_mla_compressed_state_prefill_bf16`: fills an empty state from a whole prompt. */
  method PrefillState(m: Layer, state: MlaState, xs: seq<Vec>) returns (ok: bool)
    requires state.Valid()
    modifies state`len, state.latent, state.rope
    ensures state.Valid()
    ensures ok <==> |xs| > 0 && old(state.len) == 0 && |xs| <= state.capacity && state.rank == m.rank &&
                    state.ropeDim == m.ropeDim && m.hidden > 0 && m.rank > 0 && m.ropeDim > 0 && m.ropeDim % 2 == 0 &&
                    m.theta > 0.0
    ensures ok ==> Holds(m, state, xs)
    ensures !ok ==>
      state.len == old(state.len) && state.Latents() == old(state.Latents()) && state.Ropes() == old(state.Ropes())
  {
    if |xs| == 0 || state.len != 0 || |xs| > state.capacity || state.rank != m.rank || state.ropeDim != m.ropeDim ||
       m.hidden == 0 || m.rank == 0 || m.ropeDim == 0 || m.ropeDim % 2 == 1 || m.theta <= 0.0 {
      return false;
    }
    hide Latent, RopeKey, KvA;
    for t := 0 to |xs|
      invariant state.Valid() && state.len == 0
      invariant forall k | 0 <= k < t :: state.latent[k] == Latent(m, xs[k]) && state.rope[k] == RopeKey(m, xs[k], k)
    {
      var latent, rope := CompressLoop(m, xs[t], t);
      state.latent[t] := latent;
      state.rope[t] := rope;
    }
    state.len := |xs|;
    return true;
  }

  /** The two rows kept for one token. */
  method CompressLoop(m: Layer, x: Vec, pos: nat) returns (latent: Vec, rope: Vec)
    requires m.ropeDim % 2 == 0
    ensures latent == Latent(m, x) && rope == RopeKey(m, x, pos)
  {
    hide Dot, RmsNorm, Rope, RopeAt;
    var buf := MatVecLoop(x, m.kvA, m.hidden, m.rank + m.ropeDim);
    var katmp := buf[..];
    assert katmp == KvA(m, x);
    latent := RmsNormLoop(m, katmp, m.kvNorm, m.rank);
    rope := RopeLoop(m, katmp[m.rank..], pos);
  }

  /** Extending the history by one input keeps the rows of the earlier inputs and gives the next causal row. */
  lemma StepIsCausal(m: Layer, xs: seq<Vec>, x: Vec)
    ensures Latents(m, xs) + [Latent(m, x)] == Latents(m, xs + [x])
    ensures RopeKeys(m, xs) + [RopeKey(m, x, |xs|)] == RopeKeys(m, xs + [x])
    ensures Absorbed(m, Latents(m, xs + [x]), RopeKeys(m, xs + [x]), x) == Causal(m, xs + [x], |xs|)
  {
    var ys := xs + [x];
    assert ys[..|xs| + 1] == ys;
    AbsorbedIsCausal(m, ys, |xs|);
    hide Absorbed, Causal, Latent, RopeKey;
    assert Latents(m, xs) + [Latent(m, x)] == Latents(m, ys);
    assert RopeKeys(m, xs) + [RopeKey(m, x, |xs|)] == RopeKeys(m, ys);
  }

  /** Causality: row `t` does not depend on later inputs. */
  lemma CausalPrefix(m: Layer, xs: seq<Vec>, ys: seq<Vec>, t: nat)
    requires t < |xs| <= |ys| && xs == ys[..|xs|]
    ensures Causal(m, xs, t) == Causal(m, ys, t)
  {
    hide CausalHead, Project;
    assert xs[..t + 1] == ys[..t + 1];
    forall h: nat | h < m.heads
      ensures CausalHead(m, xs, t, h) == CausalHead(m, ys, t, h)
    {
      CausalHeadPrefix(m, xs, ys, t, h);
    }
    assert CausalHeads(m, xs, t) == CausalHeads(m, ys, t);
  }

  lemma CausalHeadPrefix(m: Layer, xs: seq<Vec>, ys: seq<Vec>, t: nat, h: nat)
    requires t < |xs| <= |ys| && xs[..t + 1] == ys[..t + 1]
    ensures CausalHead(m, xs, t, h) == CausalHead(m, ys, t, h)
  {
    assert xs[t] == xs[..t + 1][t] == ys[t];
  }

  /** Prefilling a prefix and then decoding the rest token by token: every decoded row is the causal row of
      the whole sequence at its position. */
  method PrefillThenDecode(m: Layer, state: MlaState, prompt: seq<Vec>, rest: seq<Vec>) returns (outs: seq<Vec>)
    requires state.Valid() && m.Accepted() && state.len == 0 && state.rank == m.rank && state.ropeDim == m.ropeDim
    requires 0 < |prompt| && |prompt| + |rest| <= state.capacity
    modifies state`len, state.latent, state.rope
    ensures state.Valid() && Holds(m, state, prompt + rest)
    ensures |outs| == |rest| && forall i | 0 <= i < |rest| :: outs[i] == Causal(m, prompt + rest, |prompt| + i)
  {
    hide Absorbed, Causal, Latent, RopeKey;
    var ok := PrefillState(m, state, prompt);
    outs := [];
    assert prompt + rest[..0] == prompt;
    for i := 0 to |rest|
      invariant state.Valid() && state.len == |prompt| + i && |outs| == i
      invariant Holds(m, state, prompt + rest[..i])
      invariant forall k | 0 <= k < i :: outs[k] == Causal(m, prompt + rest, |prompt| + k)
    {
      ghost var xs := prompt + rest[..i];
      var done, out := DecodeCompressed(m, state, rest[i], |prompt| + i);
      outs := outs + [out];
      StepIsCausal(m, xs, rest[i]);
      assert xs + [rest[i]] == prompt + rest[..i + 1];
      assert prompt + rest[..i + 1] == (prompt + rest)[..|prompt| + i + 1];
      CausalPrefix(m, prompt + rest[..i + 1], prompt + rest, |prompt| + i);
    }
    assert rest[..|rest|] == rest;
  }
}
