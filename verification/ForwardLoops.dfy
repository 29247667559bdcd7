/** The two forward walks as the runtime executes them, on per-layer states that are updated in place. */
module ForwardLoops {
  import opened CompressedState
  import opened Forward

  /** One state per layer, no buffer shared between two layers. */
  ghost predicate Separate<A, B>(states: seq<State<A, B>>)
    reads states
  {
    (forall i | 0 <= i < |states| :: states[i].Valid()) &&
    (forall i, j | 0 <= i < |states| && 0 <= j < |states| && i != j ::
      states[i] != states[j] && states[i].latent != states[j].latent && states[i].rope != states[j].rope) &&
    (forall i, j | 0 <= i < |states| && 0 <= j < |states| :: states[i].latent as object != states[j].rope)
  }

  ghost function HistOf<A, B>(state: State<A, B>): Hist<A, B>
    requires state.Valid()
    reads state, state.latent, state.rope
  {
    Hist(state.Latents(), state.Ropes())
  }

  ghost function LatentBuffers<A, B>(states: seq<State<A, B>>): set<array<A>> {
    set i | 0 <= i < |states| :: states[i].latent
  }

  ghost function RopeBuffers<A, B>(states: seq<State<A, B>>): set<array<B>> {
    set i | 0 <= i < |states| :: states[i].rope
  }

  /** The live rows of every layer are `hs`. */
  ghost predicate Hold<A, B>(states: seq<State<A, B>>, hs: seq<Hist<A, B>>)
    reads states, LatentBuffers(states), RopeBuffers(states)
  {
    Separate(states) && |hs| == |states| && forall i | 0 <= i < |states| :: HistOf(states[i]) == hs[i]
  }

  /** `kvl_mla_decode_compressed_bf16` seen from the walk: store the two rows, attend over the history. */
  method Decode<X, A, B>(m: Model<X, A, B>, l: nat, state: State<A, B>, n: X, position: int) returns (ok: bool, attn: X)
    requires state.Valid()
    modifies state`len, state.latent, state.rope
    ensures state.Valid()
    ensures ok <==> position == old(state.len) < state.capacity
    ensures !ok ==> HistOf(state) == old(HistOf(state)) && state.len == old(state.len)
    ensures ok ==> HistOf(state) == Appended(m, l, old(HistOf(state)), [n]) && state.len == old(state.len) + 1
    ensures ok ==> attn == Attention(m, l, HistOf(state), n)
  {
    if position != state.len || position >= state.capacity {
      return false, n;
    }
    state.latent[position] := m.latentOf(l, n);
    state.rope[position] := m.ropeOf(l, n, position);
    attn := m.attend(l, state.latent[..position + 1], state.rope[..position + 1], n);
    state.len := position + 1;
    return true, attn;
  }

  /** `attention_token` and `mlp_token`: one layer of the token-major walk. */
  method StepLayer<X, A, B>(m: Model<X, A, B>, l: nat, state: State<A, B>, x: X, position: int) returns (ok: bool, y: X)
    requires state.Valid()
    modifies state`len, state.latent, state.rope
    ensures state.Valid()
    ensures ok <==> position == old(state.len) < state.capacity
    ensures ok ==> (HistOf(state), y) == LayerStep(m, l, old(HistOf(state)), x) && state.len == old(state.len) + 1
  {
    var n1 := m.inputNorm(l, x);
    var done, attn := Decode(m, l, state, n1, position);
    if !done {
      return false, x;
    }
    var r1 := m.add(x, attn);
    var n2 := m.postNorm(l, r1);
    y := m.mlp(l, n2);
    y := m.add(r1, y);
    return true, y;
  }

  /** Every layer's history ends at `position` and its buffer has `room` more rows. */
  ghost predicate Fits<A, B>(states: seq<State<A, B>>, hs: seq<Hist<A, B>>, position: int, room: nat)
    requires |hs| == |states|
  {
    forall i | 0 <= i < |states| :: |hs[i].latents| == position && room <= states[i].capacity - position
  }

  /** The same step, with what it means for the other layers: nothing. */
  method StepLayerOf<X, A, B>(m: Model<X, A, B>, states: seq<State<A, B>>, l: nat, x: X, position: int,
                              ghost hs: seq<Hist<A, B>>) returns (ok: bool, y: X)
    requires l < |states| && Hold(states, hs)
    modifies states[l], states[l].latent, states[l].rope
    ensures ok <==> position == |hs[l].latents| < states[l].capacity
    ensures Separate(states)
    ensures ok ==> Hold(states, hs[l := LayerStep(m, l, hs[l], x).0])
    ensures ok ==> y == LayerStep(m, l, hs[l], x).1
  {
    hide LayerStep;
    ok, y := StepLayer(m, l, states[l], x, position);
    assert forall i | 0 <= i < |states| && i != l :: HistOf(states[i]) == old(HistOf(states[i]));
  }

  /** `forward_token`. */
  method ForwardToken<X, A, B>(m: Model<X, A, B>, states: seq<State<A, B>>, token: int, position: int,
                               ghost hs: seq<Hist<A, B>>) returns (ok: bool, logits: seq<real>)
    requires |states| == m.layers == |hs| && Hold(states, hs)
    modifies states, LatentBuffers(states), RopeBuffers(states)
    ensures ok <==> m.TokenOk(token) && Fits(states, hs, position, 1)
    ensures !m.TokenOk(token) ==> Hold(states, hs)
    ensures ok ==> Hold(states, TokenLayers(m, hs, m.embed(token), m.layers).0)
    ensures ok ==> logits == m.Logits(TokenLayers(m, hs, m.embed(token), m.layers).1)
  {
    if token < 0 || token >= m.vocab {
      return false, [];
    }
    hide LayerStep, Hold, TokenLayers, Separate;
    var x := m.embed(token);
    for l := 0 to m.layers
      invariant forall i | 0 <= i < l :: |hs[i].latents| == position && 1 <= states[i].capacity - position
      invariant Hold(states, TokenLayers(m, hs, m.embed(token), l).0) && x == TokenLayers(m, hs, m.embed(token), l).1
    {
      var done, y := StepLayerOf(m, states, l, x, position, TokenLayers(m, hs, m.embed(token), l).0);
      if !done {
        return false, [];
      }
      x := y;
    }
    return true, m.Logits(x);
  }

  // ---------------------------------------------------------------- layer-major block

  function BlockAttentions<X, A, B>(m: Model<X, A, B>, l: nat, h: Hist<A, B>, ns: seq<X>): seq<X> {
    seq(|ns|, t requires 0 <= t < |ns| => BlockAttention(m, l, h, ns, t))
  }

  /** `kvl_mla_decode_compressed_block_bf16`: decode the rows of a block one after the other. */
  method DecodeRows<X, A, B>(m: Model<X, A, B>, l: nat, state: State<A, B>, ns: seq<X>, start: int, out: array<X>,
                             ghost h: Hist<A, B>) returns (ok: bool)
    requires state.Valid() && HistOf(state) == h && out.Length == |ns|
    requires out as object != state.latent && out as object != state.rope
    modifies state, state.latent, state.rope, out
    ensures state.Valid()
    ensures ok <==> start == |h.latents| && 0 < |ns| <= state.capacity - start
    ensures !ok ==> HistOf(state) == h
    ensures ok ==> HistOf(state) == Appended(m, l, h, ns) && out[..] == BlockAttentions(m, l, h, ns)
  {
    if |ns| == 0 || start != state.len || start < 0 || |ns| > state.capacity - start {
      return false;
    }
    hide Appended, Attention;
    assert Appended(m, l, h, ns[..0]) == h;
    for t := 0 to |ns|
      invariant state.Valid() && state.len == start + t
      invariant HistOf(state) == Appended(m, l, h, ns[..t])
      invariant forall k | 0 <= k < t :: out[k] == BlockAttention(m, l, h, ns, k)
    {
      var done, attn := Decode(m, l, state, ns[t], start + t);
      assert ns[..t] + [ns[t]] == ns[..t + 1];
      AppendedSnoc(m, l, h, ns[..t], ns[t]);
      out[t] := attn;
    }
    assert ns[..|ns|] == ns;
    return true;
  }

  /** The buffers of one walk: activations and two work areas. */
  ghost predicate Work<X, A, B>(states: seq<State<A, B>>, x: array<X>, a: array<X>, b: array<X>) {
    x.Length == a.Length == b.Length && x != a && x != b && a != b &&
    forall i | 0 <= i < |states| ::
      x as object != states[i].latent && x as object != states[i].rope &&
      a as object != states[i].latent && a as object != states[i].rope &&
      b as object != states[i].latent && b as object != states[i].rope
  }

  method NormLoop<X, A, B>(m: Model<X, A, B>, l: nat, x: array<X>, a: array<X>)
    requires x != a && x.Length == a.Length
    modifies a
    ensures a[..] == Normed(m, l, x[..])
  {
    for t := 0 to x.Length
      invariant forall k | 0 <= k < t :: a[k] == m.inputNorm(l, x[k])
    {
      a[t] := m.inputNorm(l, x[t]);
    }
  }

  /** The residual and post-norm pass, the MLP pass that reuses `x` for its output, and the closing residual pass. */
  method FinishLoop<X, A, B>(m: Model<X, A, B>, l: nat, x: array<X>, a: array<X>, b: array<X>)
    requires x.Length == a.Length == b.Length && x != a && x != b && a != b
    modifies x, a, b
    ensures x[..] == seq(x.Length, t requires 0 <= t < x.Length => Finish(m, l, old(x[..])[t], old(b[..])[t]))
  {
    ghost var xs, bs := x[..], b[..];
    for t := 0 to x.Length
      invariant x[..] == xs
      invariant forall k | 0 <= k < t :: b[k] == m.add(xs[k], bs[k]) && a[k] == m.postNorm(l, b[k])
      invariant forall k | t <= k < x.Length :: b[k] == bs[k]
    {
      b[t] := m.add(x[t], b[t]);
      a[t] := m.postNorm(l, b[t]);
    }
    for t := 0 to x.Length
      invariant forall k | 0 <= k < x.Length :: b[k] == m.add(xs[k], bs[k]) && a[k] == m.postNorm(l, b[k])
      invariant forall k | 0 <= k < t :: x[k] == m.mlp(l, a[k])
    {
      x[t] := m.mlp(l, a[t]);
    }
    for t := 0 to x.Length
      invariant forall k | 0 <= k < x.Length :: b[k] == m.add(xs[k], bs[k])
      invariant forall k | 0 <= k < t :: x[k] == Finish(m, l, xs[k], bs[k])
      invariant forall k | t <= k < x.Length :: x[k] == m.mlp(l, m.postNorm(l, b[k]))
    {
      x[t] := m.add(b[t], x[t]);
    }
  }

  lemma HoldUpdated<A, B>(states: seq<State<A, B>>, hs: seq<Hist<A, B>>, l: nat, h: Hist<A, B>)
    requires Separate(states) && l < |states| == |hs| && HistOf(states[l]) == h
    requires forall i | 0 <= i < |states| && i != l :: HistOf(states[i]) == hs[i]
    ensures Hold(states, hs[l := h])
  {
  }

  /** One layer of the layer-major walk. */
  method BlockLayer<X, A, B>(m: Model<X, A, B>, states: seq<State<A, B>>, l: nat, start: int,
                             x: array<X>, a: array<X>, b: array<X>, ghost hs: seq<Hist<A, B>>) returns (ok: bool)
    requires l < |states| && Hold(states, hs) && Work(states, x, a, b)
    modifies states[l], states[l].latent, states[l].rope, x, a, b
    ensures ok <==> start == |hs[l].latents| && 0 < x.Length <= states[l].capacity - start
    ensures ok ==> Hold(states, hs[l := LayerBlock(m, l, hs[l], old(x[..])).0])
    ensures ok ==> x[..] == LayerBlock(m, l, hs[l], old(x[..])).1
  {
    hide Appended, BlockAttention, Finish;
    ghost var xs := x[..];
    NormLoop(m, l, x, a);
    assert a[..] == Normed(m, l, xs);
    ok := DecodeRows(m, l, states[l], a[..], start, b, hs[l]);
    if ok {
      assert forall i | 0 <= i < |states| && i != l :: HistOf(states[i]) == old(HistOf(states[i]));
      HoldUpdated(states, hs, l, Appended(m, l, hs[l], Normed(m, l, xs)));
      FinishLoop(m, l, x, a, b);
      assert x[..] == LayerBlock(m, l, hs[l], xs).1;
    }
  }

  function Embedded<X, A, B>(m: Model<X, A, B>, tokens: seq<int>): seq<X>
    requires forall t | 0 <= t < |tokens| :: m.TokenOk(tokens[t])
  {
    seq(|tokens|, t requires 0 <= t < |tokens| && m.TokenOk(tokens[t]) => m.embed(tokens[t]))
  }

  /** First index of the largest logit: `argmax_lab`. */
  function ArgMax(v: seq<real>, n: nat): (best: nat)
    requires 0 < n <= |v|
    ensures best < n && (forall i | 0 <= i < n :: v[i] <= v[best]) && forall i | 0 <= i < best :: v[i] < v[best]
  {
    if n == 1 then 0
    else
      var best := ArgMax(v, n - 1);
      if v[n - 1] > v[best] then n - 1 else best
  }

  /** The greedy choice after an activation; an empty vocabulary has only the default 0. */
  function Greedy<X, A, B>(m: Model<X, A, B>, x: X): (token: nat)
    ensures m.vocab > 0 ==> m.TokenOk(token)
  {
    if m.vocab == 0 then 0 else ArgMax(m.Logits(x), m.vocab)
  }

  /** No vocabulary entry has a larger logit than the greedy token, and none before it has the same. */
  lemma GreedyMeaning<X, A, B>(m: Model<X, A, B>, x: X, i: nat)
    requires i < m.vocab
    ensures m.logit(x, i) <= m.logit(x, Greedy(m, x)) && (i < Greedy(m, x) ==> m.logit(x, i) < m.logit(x, Greedy(m, x)))
  {
    var v, best := m.Logits(x), Greedy(m, x);
    assert v[i] == m.logit(x, i) && v[best] == m.logit(x, best);
  }

  method ArgMaxLoop(v: seq<real>) returns (best: nat)
    ensures best == if |v| == 0 then 0 else ArgMax(v, |v|)
  {
    best := 0;
    var i := 1;
    while i < |v|
      invariant |v| > 0 ==> 1 <= i <= |v| && best == ArgMax(v, i)
      invariant |v| == 0 ==> best == 0
    {
      if v[i] > v[best] {
        best := i;
      }
      i := i + 1;
    }
  }

  /** `forward_block_exact_lab`: every check happens before any state is touched. */
  method ForwardBlock<X, A, B>(m: Model<X, A, B>, states: seq<State<A, B>>, tokens: seq<int>, start: int,
                               ghost hs: seq<Hist<A, B>>) returns (ok: bool, nextIds: seq<nat>, lastLogits: seq<real>)
    requires |states| == m.layers == |hs| && Hold(states, hs)
    modifies states, LatentBuffers(states), RopeBuffers(states)
    ensures ok <==>
      |tokens| > 0 && start >= 0 && (forall t | 0 <= t < |tokens| :: m.TokenOk(tokens[t])) &&
      Fits(states, hs, start, |tokens|)
    ensures !ok ==> Hold(states, hs)
    ensures ok ==> Hold(states, Block(m, hs, Embedded(m, tokens), m.layers).0)
    ensures ok ==> |nextIds| == |tokens| && forall t | 0 <= t < |tokens| ::
      nextIds[t] == Greedy(m, Block(m, hs, Embedded(m, tokens), m.layers).1[t])
    ensures ok ==> lastLogits == m.Logits(Block(m, hs, Embedded(m, tokens), m.layers).1[|tokens| - 1])
  {
    if |tokens| == 0 || start < 0 {
      return false, [], [];
    }
    hide Block, Embedded, Hold, Fits, Greedy;
    var clear := CheckBlock(m, states, tokens, start, hs);
    if !clear {
      return false, [], [];
    }
    nextIds, lastLogits := BlockRun(m, states, tokens, start, hs);
    return true, nextIds, lastLogits;
  }

  method BlockRun<X, A, B>(m: Model<X, A, B>, states: seq<State<A, B>>, tokens: seq<int>, start: int,
                           ghost hs: seq<Hist<A, B>>)
      returns (nextIds: seq<nat>, lastLogits: seq<real>)
    requires |states| == m.layers == |hs| && Hold(states, hs) && |tokens| > 0
    requires (forall t | 0 <= t < |tokens| :: m.TokenOk(tokens[t])) && Fits(states, hs, start, |tokens|)
    modifies states, LatentBuffers(states), RopeBuffers(states)
    ensures Hold(states, Block(m, hs, Embedded(m, tokens), m.layers).0)
    ensures |nextIds| == |tokens| && forall t | 0 <= t < |tokens| ::
      nextIds[t] == Greedy(m, Block(m, hs, Embedded(m, tokens), m.layers).1[t])
    ensures lastLogits == m.Logits(Block(m, hs, Embedded(m, tokens), m.layers).1[|tokens| - 1])
  {
    hide Block, Embedded, Hold, Work, Fits, Greedy, Separate;
    ghost var xs := Embedded(m, tokens);
    var x, a, b := Buffers(m, states, tokens);
    EmbeddedLen(m, tokens);
    BlockLoop(m, states, x, a, b, start, hs, xs);
    nextIds, lastLogits := LogitsLoop(m, x[..]);
  }

  method Buffers<X, A, B>(m: Model<X, A, B>, states: seq<State<A, B>>, tokens: seq<int>)
      returns (x: array<X>, a: array<X>, b: array<X>)
    requires forall t | 0 <= t < |tokens| :: m.TokenOk(tokens[t])
    ensures fresh({x, a, b}) && Work(states, x, a, b) && x[..] == Embedded(m, tokens)
  {
    hide Embedded;
    x := EmbedLoop(m, tokens);
    a := EmbedLoop(m, tokens);
    b := EmbedLoop(m, tokens);
    EmbeddedLen(m, tokens);
  }

  lemma EmbeddedLen<X, A, B>(m: Model<X, A, B>, tokens: seq<int>)
    requires forall t | 0 <= t < |tokens| :: m.TokenOk(tokens[t])
    ensures |Embedded(m, tokens)| == |tokens|
  {
  }

  method CheckBlock<X, A, B>(m: Model<X, A, B>, states: seq<State<A, B>>, tokens: seq<int>, start: int,
                             ghost hs: seq<Hist<A, B>>) returns (ok: bool)
    requires |states| == m.layers == |hs| && Hold(states, hs)
    ensures ok <==> (forall t | 0 <= t < |tokens| :: m.TokenOk(tokens[t])) && Fits(states, hs, start, |tokens|)
  {
    for t := 0 to |tokens|
      invariant forall k | 0 <= k < t :: m.TokenOk(tokens[k])
    {
      if tokens[t] < 0 || tokens[t] >= m.vocab {
        return false;
      }
    }
    for l := 0 to m.layers
      invariant forall i | 0 <= i < l :: |hs[i].latents| == start && |tokens| <= states[i].capacity - start
    {
      if states[l].len != start || |tokens| > states[l].capacity - start {
        return false;
      }
    }
    return true;
  }

  method EmbedLoop<X, A, B>(m: Model<X, A, B>, tokens: seq<int>) returns (x: array<X>)
    requires forall t | 0 <= t < |tokens| :: m.TokenOk(tokens[t])
    ensures fresh(x) && x[..] == Embedded(m, tokens)
  {
    x := new X[|tokens|](t requires 0 <= t < |tokens| && m.TokenOk(tokens[t]) => m.embed(tokens[t]));
    assert x[..] == Embedded(m, tokens);
  }

  /** The output head over every row of a block; the logits buffer keeps the last row. */
  method LogitsLoop<X, A, B>(m: Model<X, A, B>, xs: seq<X>) returns (nextIds: seq<nat>, lastLogits: seq<real>)
    requires |xs| > 0
    ensures |nextIds| == |xs| && forall t | 0 <= t < |xs| :: nextIds[t] == Greedy(m, xs[t])
    ensures lastLogits == m.Logits(xs[|xs| - 1])
  {
    nextIds, lastLogits := [], [];
    for t := 0 to |xs|
      invariant |nextIds| == t && forall k | 0 <= k < t :: nextIds[k] == Greedy(m, xs[k])
      invariant t > 0 ==> lastLogits == m.Logits(xs[t - 1])
    {
      lastLogits := m.Logits(xs[t]);
      var best := ArgMaxLoop(lastLogits);
      nextIds := nextIds + [best];
    }
  }

  method BlockLoop<X, A, B>(m: Model<X, A, B>, states: seq<State<A, B>>, x: array<X>, a: array<X>, b: array<X>,
                            start: int,
                            ghost hs: seq<Hist<A, B>>, ghost xs: seq<X>)
    requires |states| == m.layers == |hs| && Hold(states, hs) && Work(states, x, a, b)
    requires x[..] == xs && |xs| > 0 && Fits(states, hs, start, |xs|)
    modifies states, LatentBuffers(states), RopeBuffers(states), x, a, b
    ensures Hold(states, Block(m, hs, xs, m.layers).0) && x[..] == Block(m, hs, xs, m.layers).1
  {
    hide LayerBlock, Hold, Block;
    BlockNone(m, hs, xs);
    for l := 0 to m.layers
      invariant Hold(states, Block(m, hs, xs, l).0) && x[..] == Block(m, hs, xs, l).1
    {
      BlockNext(m, hs, xs, l);
      var ok := BlockLayer(m, states, l, start, x, a, b, Block(m, hs, xs, l).0);
    }
  }

  lemma BlockNone<X, A, B>(m: Model<X, A, B>, hs: seq<Hist<A, B>>, xs: seq<X>)
    ensures Block(m, hs, xs, 0) == (hs, xs)
  {
  }

  lemma BlockNext<X, A, B>(m: Model<X, A, B>, hs: seq<Hist<A, B>>, xs: seq<X>, l: nat)
    requires l < |hs|
    ensures
      var (before, ys) := Block(m, hs, xs, l);
      before[l] == hs[l] &&
      Block(m, hs, xs, l + 1) == (before[l := LayerBlock(m, l, hs[l], ys).0], LayerBlock(m, l, hs[l], ys).1)
  {
    hide LayerBlock;
    var (before, ys) := Block(m, hs, xs, l);
    assert before[l] == before[l..][0] == hs[l..][0];
  }

  // ---------------------------------------------------------------- layer-major prefill

  /** `kvl_mla_compressed_state_prefill_bf16`: the rows of a whole prompt into an empty state. */
  method PrefillState<X, A, B>(m: Model<X, A, B>, l: nat, state: State<A, B>, ns: seq<X>, ghost h: Hist<A, B>)
      returns (ok: bool)
    requires state.Valid() && HistOf(state) == h
    modifies state, state.latent, state.rope
    ensures state.Valid()
    ensures ok <==> |ns| > 0 && |h.latents| == 0 && |ns| <= state.capacity
    ensures !ok ==> HistOf(state) == h
    ensures ok ==> HistOf(state) == Appended(m, l, NoHist(), ns)
  {
    if |ns| == 0 || state.len != 0 || |ns| > state.capacity {
      return false;
    }
    for t := 0 to |ns|
      invariant state.Valid() && state.len == 0
      invariant forall k | 0 <= k < t ::
        state.latent[k] == m.latentOf(l, ns[k]) && state.rope[k] == m.ropeOf(l, ns[k], k)
    {
      state.latent[t] := m.latentOf(l, ns[t]);
      state.rope[t] := m.ropeOf(l, ns[t], t);
    }
    state.len := |ns|;
    assert state.Latents() == [] + Latents(m, l, ns);
    assert state.Ropes() == [] + Ropes(m, l, ns, 0);
    return true;
  }

  method PrefillAttention<X, A, B>(m: Model<X, A, B>, l: nat, ns: seq<X>, b: array<X>)
    requires b.Length == |ns|
    modifies b
    ensures b[..] == seq(|ns|, t requires 0 <= t => m.prefill(l, ns, t))
  {
    for t := 0 to |ns|
      invariant forall k: nat | k < t :: b[k] == m.prefill(l, ns, k)
    {
      b[t] := m.prefill(l, ns, t);
    }
  }

  /** One layer of the prefill walk. */
  method PrefillLayer<X, A, B>(m: Model<X, A, B>, states: seq<State<A, B>>, l: nat,
                               x: array<X>, a: array<X>, b: array<X>, ghost hs: seq<Hist<A, B>>) returns (ok: bool)
    requires l < |states| && Hold(states, hs) && Work(states, x, a, b)
    modifies states[l], states[l].latent, states[l].rope, x, a, b
    ensures ok <==> |hs[l].latents| == 0 && 0 < x.Length <= states[l].capacity
    ensures ok ==> Hold(states, hs[l := PrefillBlock(m, l, old(x[..])).0])
    ensures ok ==> x[..] == PrefillBlock(m, l, old(x[..])).1
  {
    hide Appended, Finish;
    ghost var xs := x[..];
    NormLoop(m, l, x, a);
    assert a[..] == Normed(m, l, xs);
    PrefillAttention(m, l, a[..], b);
    ok := PrefillState(m, l, states[l], a[..], hs[l]);
    if ok {
      assert forall i | 0 <= i < |states| && i != l :: HistOf(states[i]) == old(HistOf(states[i]));
      HoldUpdated(states, hs, l, Appended(m, l, NoHist(), Normed(m, l, xs)));
      FinishLoop(m, l, x, a, b);
      assert x[..] == PrefillBlock(m, l, xs).1;
    }
  }

  /** `prefill_prompt`.  A layer whose state is not empty or is too small stops the walk. */
  method PrefillPrompt<X, A, B>(m: Model<X, A, B>, states: seq<State<A, B>>, prompt: seq<int>,
                                ghost hs: seq<Hist<A, B>>)
      returns (ok: bool, logits: seq<real>)
    requires |states| == m.layers == |hs| && Hold(states, hs)
    modifies states, LatentBuffers(states), RopeBuffers(states)
    ensures ok <==>
      |prompt| > 0 && (forall t | 0 <= t < |prompt| :: m.TokenOk(prompt[t])) && Fits(states, hs, 0, |prompt|)
    ensures ok ==> Hold(states, Prefilled(m, Embedded(m, prompt), m.layers).0)
    ensures ok ==> logits == m.Logits(Prefilled(m, Embedded(m, prompt), m.layers).1[|prompt| - 1])
  {
    if |prompt| == 0 {
      return false, [];
    }
    var t := 0;
    while t < |prompt|
      invariant 0 <= t <= |prompt| && forall k | 0 <= k < t :: m.TokenOk(prompt[k])
    {
      if prompt[t] < 0 || prompt[t] >= m.vocab {
        return false, [];
      }
      t := t + 1;
    }
    hide Embedded, Hold, Work, Prefilled;
    var x, a, b := Buffers(m, states, prompt);
    EmbeddedLen(m, prompt);
    ok := PrefillLoop(m, states, x, a, b, hs, Embedded(m, prompt));
    if ok {
      logits := m.Logits(x[|prompt| - 1]);
    } else {
      logits := [];
    }
  }

  method PrefillLoop<X, A, B>(m: Model<X, A, B>, states: seq<State<A, B>>, x: array<X>, a: array<X>, b: array<X>,
                              ghost hs: seq<Hist<A, B>>, ghost xs: seq<X>) returns (ok: bool)
    requires |states| == m.layers == |hs| && Hold(states, hs) && Work(states, x, a, b)
    requires x[..] == xs && |xs| > 0
    modifies states, LatentBuffers(states), RopeBuffers(states), x, a, b
    ensures ok <==> Fits(states, hs, 0, |xs|)
    ensures ok ==> Hold(states, Prefilled(m, xs, m.layers).0) && x[..] == Prefilled(m, xs, m.layers).1
  {
    hide PrefillBlock, Hold, Prefilled, Work, Separate, PrefilledOver;
    PrefilledOverNone(m, hs, xs);
    for l := 0 to m.layers
      invariant forall i | 0 <= i < l :: |hs[i].latents| == 0 && |xs| <= states[i].capacity
      invariant Hold(states, PrefilledOver(m, hs, xs, l)) && x[..] == Prefilled(m, xs, l).1
    {
      PrefilledOverNext(m, hs, xs, l);
      var done := PrefillLayer(m, states, l, x, a, b, PrefilledOver(m, hs, xs, l));
      if !done {
        return false;
      }
    }
    PrefilledOverAll(m, hs, xs);
    return true;
  }

  /** Histories while the prefill walk is in front of layer `l`. */
  function PrefilledOver<X, A, B>(m: Model<X, A, B>, hs: seq<Hist<A, B>>, xs: seq<X>, l: nat): (r: seq<Hist<A, B>>)
    requires l <= |hs|
    ensures |r| == |hs|
  {
    Prefilled(m, xs, l).0 + hs[l..]
  }

  lemma PrefilledOverNone<X, A, B>(m: Model<X, A, B>, hs: seq<Hist<A, B>>, xs: seq<X>)
    ensures PrefilledOver(m, hs, xs, 0) == hs && Prefilled(m, xs, 0).1 == xs
  {
  }

  lemma PrefilledOverAll<X, A, B>(m: Model<X, A, B>, hs: seq<Hist<A, B>>, xs: seq<X>)
    requires |hs| == m.layers
    ensures PrefilledOver(m, hs, xs, m.layers) == Prefilled(m, xs, m.layers).0
  {
  }

  lemma PrefilledOverNext<X, A, B>(m: Model<X, A, B>, hs: seq<Hist<A, B>>, xs: seq<X>, l: nat)
    requires l < |hs|
    ensures
      var over, ys := PrefilledOver(m, hs, xs, l), Prefilled(m, xs, l).1;
      over[l] == hs[l] &&
      PrefilledOver(m, hs, xs, l + 1) == over[l := PrefillBlock(m, l, ys).0] &&
      Prefilled(m, xs, l + 1).1 == PrefillBlock(m, l, ys).1
  {
    hide PrefillBlock;
    var (before, ys) := Prefilled(m, xs, l);
    assert Prefilled(m, xs, l + 1) == (before + [PrefillBlock(m, l, ys).0], PrefillBlock(m, l, ys).1);
    assert (before + hs[l..])[l := PrefillBlock(m, l, ys).0] == before + [PrefillBlock(m, l, ys).0] + hs[l + 1..];
  }
}
