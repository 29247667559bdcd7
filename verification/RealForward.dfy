/** The walks instantiated with the attention kernels over the reals. */
module RealForward {
  import opened Vectors
  import Mla
  import opened Forward
  import opened MlaDecode

  function LayerAt(layers: seq<Mla.Layer>, l: nat): Mla.Layer
    requires |layers| > 0
  {
    if l < |layers| then layers[l] else layers[0]
  }

  /** The model whose decode attention is the absorbed kernel and whose prompt attention is the causal prefill. */
  function RealModel(layers: seq<Mla.Layer>, vocab: nat, embed: nat -> Vec, inputNorm: (nat, Vec) -> Vec,
                     add: (Vec, Vec) -> Vec, postNorm: (nat, Vec) -> Vec, mlp: (nat, Vec) -> Vec,
                     logit: (Vec, nat) -> real): Model<Vec, Vec, Vec>
    requires |layers| > 0
  {
    Model(|layers|, vocab, embed, inputNorm,
      (l: nat, x: Vec) => Mla.Latent(LayerAt(layers, l), x),
      (l: nat, x: Vec, pos: nat) => Mla.RopeKey(LayerAt(layers, l), x, pos),
      (l: nat, latents: seq<Vec>, ropes: seq<Vec>, x: Vec) => Mla.Absorbed(LayerAt(layers, l), latents, ropes, x),
      (l: nat, xs: seq<Vec>, t: nat) => if t < |xs| then Mla.Causal(LayerAt(layers, l), xs, t) else [],
      add, postNorm, mlp, logit)
  }

  /** Over the reals the prompt kernel and the decode kernel agree, so prefill is serial decoding. */
  lemma RealModelAgrees(layers: seq<Mla.Layer>, vocab: nat, embed: nat -> Vec, inputNorm: (nat, Vec) -> Vec,
                        add: (Vec, Vec) -> Vec,
                        postNorm: (nat, Vec) -> Vec, mlp: (nat, Vec) -> Vec, logit: (Vec, nat) -> real)
    requires |layers| > 0
    ensures PrefillAgrees(RealModel(layers, vocab, embed, inputNorm, add, postNorm, mlp, logit))
  {
    var m := RealModel(layers, vocab, embed, inputNorm, add, postNorm, mlp, logit);
    forall l: nat, ns: seq<Vec>, t: nat | t < |ns|
      ensures m.prefill(l, ns, t) == BlockAttention(m, l, NoHist(), ns, t)
    {
      var layer, hist := LayerAt(layers, l), ns[..t + 1];
      Mla.AbsorbedIsCausal(layer, ns, t);
      hide Mla.Absorbed, Mla.Causal, Mla.Latent, Mla.RopeKey;
      var h := Appended(m, l, NoHist(), hist);
      assert h.latents == Mla.Latents(layer, hist);
      assert h.ropes == Mla.RopeKeys(layer, hist);
    }
  }

  /** Prefilling a prompt with the causal kernel and then decoding from the compressed rows is one serial decode. */
  lemma RealPrefillIsSerial(layers: seq<Mla.Layer>, vocab: nat, embed: nat -> Vec, inputNorm: (nat, Vec) -> Vec,
                            add: (Vec, Vec) -> Vec, postNorm: (nat, Vec) -> Vec, mlp: (nat, Vec) -> Vec,
                            logit: (Vec, nat) -> real, xs: seq<Vec>)
    requires |layers| > 0
    ensures var m := RealModel(layers, vocab, embed, inputNorm, add, postNorm, mlp, logit);
            Prefilled(m, xs, m.layers) == Serial(m, NoHists(m), xs)
  {
    RealModelAgrees(layers, vocab, embed, inputNorm, add, postNorm, mlp, logit);
    PrefillIsSerial(RealModel(layers, vocab, embed, inputNorm, add, postNorm, mlp, logit), xs);
  }

  // ---------------------------------------------------------------- what a layer adds to its input

  /** Vector addition, entry by entry. */
  function Sum(a: Vec, b: Vec): Vec {
    seq(|a|, i requires 0 <= i => At(a, i) + At(b, i))
  }

  /** The real model with vector addition as its residual. */
  function SumModel(layers: seq<Mla.Layer>, vocab: nat, embed: nat -> Vec, inputNorm: (nat, Vec) -> Vec,
                    postNorm: (nat, Vec) -> Vec, mlp: (nat, Vec) -> Vec, logit: (Vec, nat) -> real)
      : Model<Vec, Vec, Vec>
    requires |layers| > 0
  {
    RealModel(layers, vocab, embed, inputNorm, Sum, postNorm, mlp, logit)
  }

  /** The compressed rows of a layer that has seen the normalised inputs `ns`. */
  function RowsOf(layer: Mla.Layer, ns: seq<Vec>): Hist<Vec, Vec> {
    Hist(Mla.Latents(layer, ns), Mla.RopeKeys(layer, ns))
  }

  /** A layer as an equation: `y` is `x` plus the attention row `a` plus the MLP of the normalised sum of the two. */
  ghost predicate Adds(m: Model<Vec, Vec, Vec>, l: nat, x: Vec, a: Vec, y: Vec) {
    |y| == |x| &&
    forall i | 0 <= i < |x| :: y[i] == x[i] + At(a, i) + At(m.mlp(l, m.postNorm(l, Sum(x, a))), i)
  }

  lemma FinishAdds(m: Model<Vec, Vec, Vec>, l: nat, x: Vec, a: Vec)
    requires m.add == Sum
    ensures Adds(m, l, x, a, Finish(m, l, x, a))
  {
  }

  /** Layer `l` of the model runs the real kernels of `layer`. */
  ghost predicate Runs(m: Model<Vec, Vec, Vec>, layer: Mla.Layer, l: nat) {
    m.add == Sum && (forall x :: m.latentOf(l, x) == Mla.Latent(layer, x)) &&
    (forall x, pos: nat :: m.ropeOf(l, x, pos) == Mla.RopeKey(layer, x, pos)) &&
    (forall latents, ropes, x :: m.attend(l, latents, ropes, x) == Mla.Absorbed(layer, latents, ropes, x)) &&
    forall ns, t: nat | t < |ns| :: m.prefill(l, ns, t) == Mla.Causal(layer, ns, t)
  }

  lemma SumRuns(layers: seq<Mla.Layer>, vocab: nat, embed: nat -> Vec, inputNorm: (nat, Vec) -> Vec,
                postNorm: (nat, Vec) -> Vec, mlp: (nat, Vec) -> Vec, logit: (Vec, nat) -> real, l: nat)
    requires l < |layers|
    ensures Runs(SumModel(layers, vocab, embed, inputNorm, postNorm, mlp, logit), layers[l], l)
  {
    hide Mla.Latent, Mla.RopeKey, Mla.Absorbed, Mla.Causal;
    assert LayerAt(layers, l) == layers[l];
  }

  lemma RunsSum(m: Model<Vec, Vec, Vec>, layer: Mla.Layer, l: nat)
    requires Runs(m, layer, l)
    ensures m.add == Sum
  {
  }

  /** More rows appended to those of `past`. */
  lemma MoreRows(m: Model<Vec, Vec, Vec>, layer: Mla.Layer, l: nat, past: seq<Vec>, ns: seq<Vec>)
    requires Runs(m, layer, l)
    ensures Appended(m, l, RowsOf(layer, past), ns) == RowsOf(layer, past + ns)
  {
    hide Mla.Latent, Mla.RopeKey;
    var h, whole := Appended(m, l, RowsOf(layer, past), ns), RowsOf(layer, past + ns);
    assert h.latents == whole.latents;
    assert h.ropes == whole.ropes;
  }

  /** Attention over the rows of `ns`, its last input included, is the last causal row. */
  lemma LastRow(m: Model<Vec, Vec, Vec>, layer: Mla.Layer, l: nat, ns: seq<Vec>)
    requires |ns| > 0 && Runs(m, layer, l)
    ensures Attention(m, l, RowsOf(layer, ns), ns[|ns| - 1]) == Mla.Causal(layer, ns, |ns| - 1)
  {
    Mla.AbsorbedIsCausal(layer, ns, |ns| - 1);
    assert ns[..|ns| - 1 + 1] == ns;
  }

  /** One token through layer `l` of a token walk, for a layer that holds the rows of `past`: it adds the causal row of
      the normalised inputs up to the token, then the MLP, and leaves the longer rows. */
  lemma TokenAdds(layers: seq<Mla.Layer>, vocab: nat, embed: nat -> Vec, inputNorm: (nat, Vec) -> Vec,
                  postNorm: (nat, Vec) -> Vec, mlp: (nat, Vec) -> Vec, logit: (Vec, nat) -> real,
                  hs: seq<Hist<Vec, Vec>>, x: Vec, l: nat, past: seq<Vec>)
    requires |hs| == |layers| > l && hs[l] == RowsOf(layers[l], past)
    ensures var m := SumModel(layers, vocab, embed, inputNorm, postNorm, mlp, logit);
            var y := TokenLayers(m, hs, x, l).1;
            var ns := past + [inputNorm(l, y)];
            var (after, z) := TokenLayers(m, hs, x, l + 1);
            after[l] == RowsOf(layers[l], ns) && Adds(m, l, y, Mla.Causal(layers[l], ns, |past|), z)
  {
    hide LayerStep, Runs, RowsOf, Adds, Mla.Causal;
    var m := SumModel(layers, vocab, embed, inputNorm, postNorm, mlp, logit);
    SumRuns(layers, vocab, embed, inputNorm, postNorm, mlp, logit, l);
    var (before, y) := TokenLayers(m, hs, x, l);
    assert before[l] == before[l..][0] == hs[l..][0] == hs[l];
    StepAdds(m, layers[l], l, past, y);
  }

  lemma StepAdds(m: Model<Vec, Vec, Vec>, layer: Mla.Layer, l: nat, past: seq<Vec>, y: Vec)
    requires Runs(m, layer, l)
    ensures var ns := past + [m.inputNorm(l, y)];
            var (h, z) := LayerStep(m, l, RowsOf(layer, past), y);
            h == RowsOf(layer, ns) && Adds(m, l, y, Mla.Causal(layer, ns, |past|), z)
  {
    hide RowsOf, Adds, Mla.Causal, Attention, Appended, Finish;
    var n := m.inputNorm(l, y);
    MoreRows(m, layer, l, past, [n]);
    LastRow(m, layer, l, past + [n]);
    assert |past + [n]| - 1 == |past| && (past + [n])[|past|] == n;
    RunsSum(m, layer, l);
    FinishAdds(m, l, y, Mla.Causal(layer, past + [n], |past|));
  }

  /** The inputs of layer `l` after its first norm. */
  function NormRows(inputNorm: (nat, Vec) -> Vec, l: nat, xs: seq<Vec>): seq<Vec> {
    seq(|xs|, t requires 0 <= t < |xs| => inputNorm(l, xs[t]))
  }

  /** Layer `l` of a block walk: every token adds the causal row of the normalised inputs up to itself. */
  lemma BlockAdds(layers: seq<Mla.Layer>, vocab: nat, embed: nat -> Vec, inputNorm: (nat, Vec) -> Vec,
                  postNorm: (nat, Vec) -> Vec, mlp: (nat, Vec) -> Vec, logit: (Vec, nat) -> real,
                  hs: seq<Hist<Vec, Vec>>, xs: seq<Vec>, l: nat, past: seq<Vec>)
    requires |hs| == |layers| > l && hs[l] == RowsOf(layers[l], past)
    ensures var m := SumModel(layers, vocab, embed, inputNorm, postNorm, mlp, logit);
            var ys := Block(m, hs, xs, l).1;
            var ns := past + NormRows(inputNorm, l, ys);
            var (after, zs) := Block(m, hs, xs, l + 1);
            after[l] == RowsOf(layers[l], ns) &&
            forall t: nat | t < |xs| :: Adds(m, l, ys[t], Mla.Causal(layers[l], ns, |past| + t), zs[t])
  {
    hide LayerBlock, Runs, RowsOf, Adds, Mla.Causal, NormRows;
    var m := SumModel(layers, vocab, embed, inputNorm, postNorm, mlp, logit);
    SumRuns(layers, vocab, embed, inputNorm, postNorm, mlp, logit, l);
    var (before, ys) := Block(m, hs, xs, l);
    assert before[l] == before[l..][0] == hs[l..][0] == hs[l];
    LayerBlockAdds(m, layers[l], l, past, ys);
  }

  lemma LayerBlockAdds(m: Model<Vec, Vec, Vec>, layer: Mla.Layer, l: nat, past: seq<Vec>, ys: seq<Vec>)
    requires Runs(m, layer, l)
    ensures var ns := past + NormRows(m.inputNorm, l, ys);
            var (h, zs) := LayerBlock(m, l, RowsOf(layer, past), ys);
            |ns| == |past| + |ys| && |zs| == |ys| && h == RowsOf(layer, ns) &&
            forall t: nat | t < |ys| :: Adds(m, l, ys[t], Mla.Causal(layer, ns, |past| + t), zs[t])
  {
    var rows := NormRows(m.inputNorm, l, ys);
    var ns := past + rows;
    assert Normed(m, l, ys) == rows;
    MoreRows(m, layer, l, past, rows);
    hide RowsOf, Adds, Mla.Causal, Appended, Finish, NormRows, Normed, BlockAttention, Runs;
    RunsSum(m, layer, l);
    forall t: nat | t < |ys|
      ensures Adds(m, l, ys[t], Mla.Causal(layer, ns, |past| + t), LayerBlock(m, l, RowsOf(layer, past), ys).1[t])
    {
      RowInBlock(m, layer, l, past, rows, t);
      FinishAdds(m, l, ys[t], Mla.Causal(layer, ns, |past| + t));
    }
  }

  /** The attention row of token `t` of a block. */
  lemma RowInBlock(m: Model<Vec, Vec, Vec>, layer: Mla.Layer, l: nat, past: seq<Vec>, rows: seq<Vec>, t: nat)
    requires t < |rows| && Runs(m, layer, l)
    ensures BlockAttention(m, l, RowsOf(layer, past), rows, t) == Mla.Causal(layer, past + rows, |past| + t)
  {
    hide Runs, Appended, Attention, RowsOf, Mla.Causal;
    var ns := past + rows[..t + 1];
    MoreRows(m, layer, l, past, rows[..t + 1]);
    LastRow(m, layer, l, ns);
    assert (past + rows)[..|ns|] == ns && ns[|ns| - 1] == rows[t];
    CausalPrefix(layer, ns, past + rows, |past| + t);
  }

  /** Layer `l` of a prompt walk. */
  lemma PromptAdds(layers: seq<Mla.Layer>, vocab: nat, embed: nat -> Vec, inputNorm: (nat, Vec) -> Vec,
                   postNorm: (nat, Vec) -> Vec, mlp: (nat, Vec) -> Vec, logit: (Vec, nat) -> real,
                   xs: seq<Vec>, l: nat)
    requires |layers| > l
    ensures var m := SumModel(layers, vocab, embed, inputNorm, postNorm, mlp, logit);
            var ys := Prefilled(m, xs, l).1;
            var ns := NormRows(inputNorm, l, ys);
            var (after, zs) := Prefilled(m, xs, l + 1);
            after[l] == RowsOf(layers[l], ns) &&
            forall t: nat | t < |xs| :: Adds(m, l, ys[t], Mla.Causal(layers[l], ns, t), zs[t])
  {
    hide PrefillBlock, Runs, RowsOf, Adds, Mla.Causal, NormRows;
    var m := SumModel(layers, vocab, embed, inputNorm, postNorm, mlp, logit);
    SumRuns(layers, vocab, embed, inputNorm, postNorm, mlp, logit, l);
    PrefillBlockAdds(m, layers[l], l, Prefilled(m, xs, l).1);
  }

  lemma PrefillBlockAdds(m: Model<Vec, Vec, Vec>, layer: Mla.Layer, l: nat, ys: seq<Vec>)
    requires Runs(m, layer, l)
    ensures var ns := NormRows(m.inputNorm, l, ys);
            var (h, zs) := PrefillBlock(m, l, ys);
            |ns| == |zs| == |ys| && h == RowsOf(layer, ns) &&
            forall t: nat | t < |ys| :: Adds(m, l, ys[t], Mla.Causal(layer, ns, t), zs[t])
  {
    var ns := NormRows(m.inputNorm, l, ys);
    assert Normed(m, l, ys) == ns;
    assert RowsOf(layer, []) == NoHist() && [] + ns == ns;
    MoreRows(m, layer, l, [], ns);
    hide RowsOf, Adds, Mla.Causal, Appended, Finish, NormRows, Normed;
    forall t: nat | t < |ys|
      ensures Adds(m, l, ys[t], Mla.Causal(layer, ns, t), PrefillBlock(m, l, ys).1[t])
    {
      FinishAdds(m, l, ys[t], Mla.Causal(layer, ns, t));
    }
  }

  /** With an MLP that returns nothing, one layer adds exactly the causal row to every token of the prompt. */
  lemma OneLayer(layer: Mla.Layer, vocab: nat, embed: nat -> Vec, inputNorm: (nat, Vec) -> Vec,
                 postNorm: (nat, Vec) -> Vec, mlp: (nat, Vec) -> Vec, logit: (Vec, nat) -> real,
                 xs: seq<Vec>, t: nat)
    requires t < |xs| && forall r, i: nat :: At(mlp(0, r), i) == 0.0
    ensures var m := SumModel([layer], vocab, embed, inputNorm, postNorm, mlp, logit);
            Prefilled(m, xs, 1).1[t] == Sum(xs[t], Mla.Causal(layer, NormRows(inputNorm, 0, xs), t))
  {
    var m := SumModel([layer], vocab, embed, inputNorm, postNorm, mlp, logit);
    var a := Mla.Causal(layer, NormRows(inputNorm, 0, xs), t);
    PromptAdds([layer], vocab, embed, inputNorm, postNorm, mlp, logit, xs, 0);
    NoLayers(m, xs);
    hide Mla.Causal, Prefilled, NormRows, Adds;
    forall r, i: nat
      ensures At(m.mlp(0, r), i) == 0.0
    {
      assert m.mlp(0, r) == mlp(0, r);
    }
    OnlyAttention(m, 0, xs[t], a, Prefilled(m, xs, 1).1[t]);
  }

  lemma NoLayers(m: Model<Vec, Vec, Vec>, xs: seq<Vec>)
    ensures Prefilled(m, xs, 0).1 == xs
  {
  }

  lemma OnlyAttention(m: Model<Vec, Vec, Vec>, l: nat, x: Vec, a: Vec, y: Vec)
    requires Adds(m, l, x, a, y) && forall r, i: nat :: At(m.mlp(l, r), i) == 0.0
    ensures y == Sum(x, a)
  {
  }
}
