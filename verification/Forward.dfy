/** The transformer as the runtime walks it, over arbitrary (bit-level) activations: one token through all
    layers, or one layer over all tokens of a block.  Attention, norms and MLPs are functions of their layer
    and operands; both walks call the same ones, so their agreement is exact equality, not approximation. */
module Forward {

  datatype Model<!X, !A, !B> = Model(
    layers: nat, vocab: nat,
    embed: nat -> X,
    inputNorm: (nat, X) -> X,
    latentOf: (nat, X) -> A,
    ropeOf: (nat, X, nat) -> B,
    attend: (nat, seq<A>, seq<B>, X) -> X,
    prefill: (nat, seq<X>, nat) -> X,
    add: (X, X) -> X,
    postNorm: (nat, X) -> X,
    mlp: (nat, X) -> X,
    logit: (X, nat) -> real)
  {
    predicate TokenOk(token: int) { 0 <= token < vocab }

    /** Final norm and output head: one logit for every vocabulary entry. */
    function Logits(x: X): (v: seq<real>)
      ensures |v| == vocab
    {
      seq(vocab, i requires 0 <= i => logit(x, i))
    }
  }

  /** The live compressed rows of one layer. */
  datatype Hist<A, B> = Hist(latents: seq<A>, ropes: seq<B>)

  // ---------------------------------------------------------------- one layer, one token

  function Latents<X, A, B>(m: Model<X, A, B>, l: nat, ns: seq<X>): seq<A> {
    seq(|ns|, t requires 0 <= t < |ns| => m.latentOf(l, ns[t]))
  }

  function Ropes<X, A, B>(m: Model<X, A, B>, l: nat, ns: seq<X>, start: nat): seq<B> {
    seq(|ns|, t requires 0 <= t < |ns| => m.ropeOf(l, ns[t], start + t))
  }

  /** The history after the normalised rows `ns` have been appended. */
  function Appended<X, A, B>(m: Model<X, A, B>, l: nat, h: Hist<A, B>, ns: seq<X>): Hist<A, B> {
    Hist(h.latents + Latents(m, l, ns), h.ropes + Ropes(m, l, ns, |h.latents|))
  }

  function Attention<X, A, B>(m: Model<X, A, B>, l: nat, h: Hist<A, B>, n: X): X {
    m.attend(l, h.latents, h.ropes, n)
  }

  /** Residual, post-norm, MLP, residual. */
  function Finish<X, A, B>(m: Model<X, A, B>, l: nat, x: X, attn: X): X {
    var r := m.add(x, attn);
    m.add(r, m.mlp(l, m.postNorm(l, r)))
  }

  function LayerStep<X, A, B>(m: Model<X, A, B>, l: nat, h: Hist<A, B>, x: X): (Hist<A, B>, X) {
    var n := m.inputNorm(l, x);
    var h' := Appended(m, l, h, [n]);
    (h', Finish(m, l, x, Attention(m, l, h', n)))
  }

  // ---------------------------------------------------------------- token-major

  /** One token through the first `l` layers. */
  function TokenLayers<X, A, B>(m: Model<X, A, B>, hs: seq<Hist<A, B>>, x: X, l: nat): (r: (seq<Hist<A, B>>, X))
    requires l <= |hs|
    ensures |r.0| == |hs| && r.0[l..] == hs[l..]
  {
    if l == 0 then (hs, x)
    else
      var (before, y) := TokenLayers(m, hs, x, l - 1);
      var (h, z) := LayerStep(m, l - 1, before[l - 1], y);
      (before[l - 1 := h], z)
  }

  /** The block token by token: the final histories and the final activation of every token. */
  function Serial<X, A, B>(m: Model<X, A, B>, hs: seq<Hist<A, B>>, xs: seq<X>): (r: (seq<Hist<A, B>>, seq<X>))
    ensures |r.0| == |hs| && |r.1| == |xs|
    decreases |xs|
  {
    if |xs| == 0 then (hs, [])
    else
      var (before, ys) := Serial(m, hs, xs[..|xs| - 1]);
      var (after, y) := TokenLayers(m, before, xs[|xs| - 1], |hs|);
      (after, ys + [y])
  }

  // ---------------------------------------------------------------- layer-major

  function Normed<X, A, B>(m: Model<X, A, B>, l: nat, xs: seq<X>): seq<X> {
    seq(|xs|, t requires 0 <= t < |xs| => m.inputNorm(l, xs[t]))
  }

  /** Attention output of token `t` of the block: it sees the history and the block up to itself. */
  function BlockAttention<X, A, B>(m: Model<X, A, B>, l: nat, h: Hist<A, B>, ns: seq<X>, t: nat): X
    requires t < |ns|
  {
    Attention(m, l, Appended(m, l, h, ns[..t + 1]), ns[t])
  }

  /** One layer over the whole block: all norms, then all attention rows, then all MLPs. */
  function LayerBlock<X, A, B>(m: Model<X, A, B>, l: nat, h: Hist<A, B>, xs: seq<X>): (Hist<A, B>, seq<X>) {
    var ns := Normed(m, l, xs);
    (Appended(m, l, h, ns),
     seq(|xs|, t requires 0 <= t < |xs| => Finish(m, l, xs[t], BlockAttention(m, l, h, ns, t))))
  }

  function Block<X, A, B>(m: Model<X, A, B>, hs: seq<Hist<A, B>>, xs: seq<X>, l: nat): (r: (seq<Hist<A, B>>, seq<X>))
    requires l <= |hs|
    ensures |r.0| == |hs| && r.0[l..] == hs[l..] && |r.1| == |xs|
  {
    if l == 0 then (hs, xs)
    else
      var (before, ys) := Block(m, hs, xs, l - 1);
      var (h, zs) := LayerBlock(m, l - 1, before[l - 1], ys);
      (before[l - 1 := h], zs)
  }

  // ---------------------------------------------------------------- loop interchange

  lemma AppendedSnoc<X, A, B>(m: Model<X, A, B>, l: nat, h: Hist<A, B>, ns: seq<X>, n: X)
    ensures Appended(m, l, h, ns + [n]) == Appended(m, l, Appended(m, l, h, ns), [n])
  {
    assert Latents(m, l, ns + [n]) == Latents(m, l, ns) + Latents(m, l, [n]);
    assert Ropes(m, l, ns + [n], |h.latents|) == Ropes(m, l, ns, |h.latents|) + Ropes(m, l, [n], |h.latents| + |ns|);
  }

  /** One more token at the end of a block is one more layer step after the block. */
  lemma LayerBlockSnoc<X, A, B>(m: Model<X, A, B>, l: nat, h: Hist<A, B>, xs: seq<X>, x: X)
    ensures
      var (before, ys) := LayerBlock(m, l, h, xs);
      var (after, y) := LayerStep(m, l, before, x);
      LayerBlock(m, l, h, xs + [x]) == (after, ys + [y])
  {
    hide Finish, Attention, Appended;
    var ns, n := Normed(m, l, xs), m.inputNorm(l, x);
    assert Normed(m, l, xs + [x]) == ns + [n];
    AppendedSnoc(m, l, h, ns, n);
    forall t: nat | t < |xs|
      ensures BlockAttention(m, l, h, ns + [n], t) == BlockAttention(m, l, h, ns, t)
    {
      assert (ns + [n])[..t + 1] == ns[..t + 1];
    }
    assert (ns + [n])[..|xs| + 1] == ns + [n];
    var (before, ys) := LayerBlock(m, l, h, xs);
    var (after, y) := LayerStep(m, l, before, x);
    assert LayerBlock(m, l, h, xs + [x]).1 == ys + [y];
  }

  /** A walk through the first `l` layers neither reads nor changes layer `l`. */
  lemma {:induction false} TokenLayersFrame<X, A, B>(m: Model<X, A, B>, hs: seq<Hist<A, B>>, x: X,
                                                     l: nat, k: nat, h: Hist<A, B>)
    requires l <= k < |hs|
    ensures TokenLayers(m, hs[k := h], x, l) == (TokenLayers(m, hs, x, l).0[k := h], TokenLayers(m, hs, x, l).1)
  {
    if l > 0 {
      hide LayerStep;
      TokenLayersFrame(m, hs, x, l - 1, k, h);
      var (before, y) := TokenLayers(m, hs, x, l - 1);
      var (g, z) := LayerStep(m, l - 1, before[l - 1], y);
      assert before[k := h][l - 1 := g] == before[l - 1 := g][k := h];
    }
  }

  lemma {:induction false} BlockSnoc<X, A, B>(m: Model<X, A, B>, hs: seq<Hist<A, B>>, xs: seq<X>, x: X, l: nat)
    requires l <= |hs|
    ensures
      var (before, ys) := Block(m, hs, xs, l);
      var (after, y) := TokenLayers(m, before, x, l);
      Block(m, hs, xs + [x], l) == (after, ys + [y])
  {
    if l > 0 {
      hide LayerStep, LayerBlock;
      BlockSnoc(m, hs, xs, x, l - 1);
      var (p, ys) := Block(m, hs, xs, l - 1);
      var (q, y) := TokenLayers(m, p, x, l - 1);
      LayerBlockSnoc(m, l - 1, p[l - 1], ys, y);
      var (h, zs) := LayerBlock(m, l - 1, p[l - 1], ys);
      assert q[l - 1] == p[l - 1] by {
        assert q[l - 1] == q[l - 1..][0] && p[l - 1] == p[l - 1..][0];
      }
      TokenLayersFrame(m, p, x, l - 1, l - 1, h);
      assert TokenLayers(m, p[l - 1 := h], x, l - 1) == (q[l - 1 := h], y);
      var (g, z) := LayerStep(m, l - 1, h, y);
      assert q[l - 1 := h][l - 1 := g] == q[l - 1 := g];
    }
  }

  lemma LayerBlockEmpty<X, A, B>(m: Model<X, A, B>, l: nat, h: Hist<A, B>)
    ensures LayerBlock(m, l, h, []) == (h, [])
  {
    var ns := Normed(m, l, []);
    assert Latents(m, l, ns) == [] && Ropes(m, l, ns, |h.latents|) == [];
    assert h.latents + [] == h.latents && h.ropes + [] == h.ropes;
    assert LayerBlock(m, l, h, []).1 == [];
  }

  lemma {:induction false} BlockEmpty<X, A, B>(m: Model<X, A, B>, hs: seq<Hist<A, B>>, l: nat)
    requires l <= |hs|
    ensures Block(m, hs, [], l) == (hs, [])
  {
    if l > 0 {
      BlockEmpty(m, hs, l - 1);
      LayerBlockEmpty(m, l - 1, hs[l - 1]);
      assert hs[l - 1 := hs[l - 1]] == hs;
    }
  }

  /** Loop interchange: for every start history and every block, walking layer by layer over the block gives
      the histories and activations of walking token by token over the layers. */
  lemma {:induction false} LoopInterchange<X, A, B>(m: Model<X, A, B>, hs: seq<Hist<A, B>>, xs: seq<X>)
    ensures Block(m, hs, xs, |hs|) == Serial(m, hs, xs)
    decreases |xs|
  {
    if |xs| == 0 {
      BlockEmpty(m, hs, |hs|);
    } else {
      var init, x := xs[..|xs| - 1], xs[|xs| - 1];
      LoopInterchange(m, hs, init);
      BlockSnoc(m, hs, init, x, |hs|);
      assert xs == init + [x];
    }
  }

  // ---------------------------------------------------------------- whole-prompt prefill

  function NoHist<A, B>(): Hist<A, B> { Hist([], []) }

  function NoHists<X, A, B>(m: Model<X, A, B>): seq<Hist<A, B>> {
    seq(m.layers, _ => NoHist())
  }

  /** One layer over a whole prompt: attention comes from the prefill kernel, the rows from the state prefill. */
  function PrefillBlock<X, A, B>(m: Model<X, A, B>, l: nat, xs: seq<X>): (Hist<A, B>, seq<X>) {
    var ns := Normed(m, l, xs);
    (Appended(m, l, NoHist(), ns),
     seq(|xs|, t requires 0 <= t < |xs| => Finish(m, l, xs[t], m.prefill(l, ns, t))))
  }

  function Prefilled<X, A, B>(m: Model<X, A, B>, xs: seq<X>, l: nat): (r: (seq<Hist<A, B>>, seq<X>))
    ensures |r.0| == l && |r.1| == |xs|
  {
    if l == 0 then ([], xs)
    else
      var (before, ys) := Prefilled(m, xs, l - 1);
      var (h, zs) := PrefillBlock(m, l - 1, ys);
      (before + [h], zs)
  }

  /** The prefill kernel computes, row by row, what decoding the rows one by one would compute. */
  ghost predicate PrefillAgrees<X(!new), A, B>(m: Model<X, A, B>) {
    forall l: nat, ns: seq<X>, t: nat | t < |ns| :: m.prefill(l, ns, t) == BlockAttention(m, l, NoHist(), ns, t)
  }

  lemma PrefillBlockIsBlock<X(!new), A, B>(m: Model<X, A, B>, l: nat, xs: seq<X>)
    requires PrefillAgrees(m)
    ensures PrefillBlock(m, l, xs) == LayerBlock(m, l, NoHist(), xs)
  {
    hide Finish, Appended, BlockAttention;
    assert PrefillBlock(m, l, xs).1 == LayerBlock(m, l, NoHist(), xs).1;
  }

  lemma {:induction false} PrefilledIsBlock<X(!new), A, B>(m: Model<X, A, B>, xs: seq<X>, l: nat)
    requires PrefillAgrees(m) && l <= m.layers
    ensures Block(m, NoHists(m), xs, l) == (Prefilled(m, xs, l).0 + NoHists(m)[l..], Prefilled(m, xs, l).1)
  {
    if l == 0 {
      assert [] + NoHists(m)[0..] == NoHists(m);
    } else {
      PrefilledIsBlock(m, xs, l - 1);
      var (before, ys) := Prefilled(m, xs, l - 1);
      PrefillBlockIsBlock(m, l - 1, ys);
      hide LayerBlock, PrefillBlock;
      var whole := before + NoHists(m)[l - 1..];
      var h := PrefillBlock(m, l - 1, ys).0;
      assert whole[l - 1] == NoHist();
      assert whole[l - 1 := h] == before + [h] + NoHists(m)[l..];
    }
  }

  /** Layer-major prefill of a prompt gives the histories and activations of decoding it token by token. */
  lemma PrefillIsSerial<X(!new), A, B>(m: Model<X, A, B>, xs: seq<X>)
    requires PrefillAgrees(m)
    ensures Prefilled(m, xs, m.layers) == Serial(m, NoHists(m), xs)
  {
    PrefilledIsBlock(m, xs, m.layers);
    LoopInterchange(m, NoHists(m), xs);
    assert Prefilled(m, xs, m.layers).0 + NoHists(m)[m.layers..] == Prefilled(m, xs, m.layers).0;
  }
}
