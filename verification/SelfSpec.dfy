/** Speculative decoding of one cycle: verify a drafted block, keep the matching prefix, roll back, commit the
    correction.  The result is the serial greedy run, whatever was drafted. */
module SelfSpec {
  import opened Wrappers
  import opened CompressedState
  import opened Forward
  import opened ForwardLoops

  /** Tokens, histories and last activation of a greedy run. */
  datatype Run<X, A, B> = Run(tokens: seq<nat>, hs: seq<Hist<A, B>>, x: X)

  /** The serial greedy run of `n` tokens from histories `hs`, the first token chosen after activation `x`. */
  function GreedyRun<X, A, B>(m: Model<X, A, B>, hs: seq<Hist<A, B>>, x: X, n: nat): (r: Run<X, A, B>)
    ensures |r.tokens| == n && |r.hs| == |hs|
  {
    if n == 0 then Run([], hs, x)
    else
      var before := GreedyRun(m, hs, x, n - 1);
      var token := Greedy(m, before.x);
      var (after, y) := TokenLayers(m, before.hs, m.embed(token), |before.hs|);
      Run(before.tokens + [token], after, y)
  }

  function EmbedAll<X, A, B>(m: Model<X, A, B>, tokens: seq<nat>): seq<X> {
    seq(|tokens|, t requires 0 <= t < |tokens| => m.embed(tokens[t]))
  }

  // ---------------------------------------------------------------- histories only grow

  ghost predicate Extends<A, B>(long: Hist<A, B>, short: Hist<A, B>, rows: nat) {
    |long.latents| == |short.latents| + rows && |long.ropes| == |short.ropes| + rows &&
    short.latents <= long.latents && short.ropes <= long.ropes
  }

  lemma {:induction false} TokenLayersGrow<X, A, B>(m: Model<X, A, B>, hs: seq<Hist<A, B>>, x: X, l: nat)
    requires l <= |hs|
    ensures forall i | 0 <= i < l :: Extends(TokenLayers(m, hs, x, l).0[i], hs[i], 1)
  {
    if l > 0 {
      TokenLayersGrow(m, hs, x, l - 1);
    }
  }

  /** The histories after a prefix of a block are the first rows of the histories after the block. */
  lemma {:induction false} SerialPrefix<X, A, B>(m: Model<X, A, B>, hs: seq<Hist<A, B>>, xs: seq<X>, a: nat)
    requires a <= |xs|
    ensures forall i | 0 <= i < |hs| :: Extends(Serial(m, hs, xs).0[i], Serial(m, hs, xs[..a]).0[i], |xs| - a)
    ensures Serial(m, hs, xs[..a]).1 == Serial(m, hs, xs).1[..a]
    decreases |xs|
  {
    if a == |xs| {
      assert xs[..a] == xs;
    } else {
      hide TokenLayers;
      var init, x := xs[..|xs| - 1], xs[|xs| - 1];
      SerialPrefix(m, hs, init, a);
      assert init[..a] == xs[..a];
      var before := Serial(m, hs, init).0;
      TokenLayersGrow(m, before, x, |hs|);
    }
  }

  lemma {:induction false} SerialGrows<X, A, B>(m: Model<X, A, B>, hs: seq<Hist<A, B>>, xs: seq<X>)
    ensures forall i | 0 <= i < |hs| :: Extends(Serial(m, hs, xs).0[i], hs[i], |xs|)
  {
    SerialPrefix(m, hs, xs, 0);
    assert xs[..0] == [];
  }

  // ---------------------------------------------------------------- the greedy run is a serial run

  /** The greedy run is the serial walk over its own tokens. */
  lemma {:induction false} GreedyIsSerial<X, A, B>(m: Model<X, A, B>, hs: seq<Hist<A, B>>, x: X, n: nat)
    ensures
      var r := GreedyRun(m, hs, x, n);
      var s := Serial(m, hs, EmbedAll(m, r.tokens));
      r.hs == s.0 && r.x == if n == 0 then x else s.1[n - 1]
  {
    if n > 0 {
      hide TokenLayers, Greedy;
      GreedyIsSerial(m, hs, x, n - 1);
      var r, before := GreedyRun(m, hs, x, n), GreedyRun(m, hs, x, n - 1);
      var xs := EmbedAll(m, r.tokens);
      assert xs[..n - 1] == EmbedAll(m, before.tokens);
    }
  }

  lemma {:induction false} GreedyPrefix<X, A, B>(m: Model<X, A, B>, hs: seq<Hist<A, B>>, x: X, a: nat, n: nat)
    requires a <= n
    ensures GreedyRun(m, hs, x, a).tokens == GreedyRun(m, hs, x, n).tokens[..a]
  {
    if a < n {
      hide TokenLayers, Greedy;
      GreedyPrefix(m, hs, x, a, n - 1);
    }
  }

  /** If the first `a` drafted tokens are the greedy ones, the verifier's choice after them is the greedy token `a`. */
  lemma NextIsGreedy<X, A, B>(m: Model<X, A, B>, hs: seq<Hist<A, B>>, x: X, draft: seq<nat>, a: nat)
    requires 0 < a <= |draft| && draft[..a] == GreedyRun(m, hs, x, a).tokens
    ensures Greedy(m, Serial(m, hs, EmbedAll(m, draft)).1[a - 1]) == GreedyRun(m, hs, x, a + 1).tokens[a]
    ensures Serial(m, hs, EmbedAll(m, draft[..a])).0 == GreedyRun(m, hs, x, a).hs
  {
    hide TokenLayers, Greedy, Serial, GreedyRun;
    GreedyIsSerial(m, hs, x, a);
    var xs := EmbedAll(m, draft);
    assert xs[..a] == EmbedAll(m, draft[..a]);
    SerialPrefix(m, hs, xs, a);
    GreedyNext(m, hs, x, a);
  }

  lemma GreedyNext<X, A, B>(m: Model<X, A, B>, hs: seq<Hist<A, B>>, x: X, n: nat)
    ensures
      var before, after := GreedyRun(m, hs, x, n), GreedyRun(m, hs, x, n + 1);
      var token := Greedy(m, before.x);
      after.tokens == before.tokens + [token] &&
      (after.hs, after.x) == TokenLayers(m, before.hs, m.embed(token), |hs|)
  {
    hide TokenLayers, Greedy;
  }

  /** Accepted prefix, as the accept loop finds it from the verifier's choices. */
  function Accepted(draft: seq<nat>, next: seq<nat>, t: nat): (a: nat)
    requires 0 < t <= |draft| == |next|
    ensures t <= a <= |draft|
    ensures forall i | t <= i < a :: draft[i] == next[i - 1]
    ensures a < |draft| ==> draft[a] != next[a - 1]
    decreases |draft| - t
  {
    if t == |draft| || draft[t] != next[t - 1] then t else Accepted(draft, next, t + 1)
  }

  /** The verifier's choices: the greedy continuation after every drafted token. */
  ghost predicate Verified<X, A, B>(m: Model<X, A, B>, hs: seq<Hist<A, B>>, x: X, draft: seq<nat>, next: seq<nat>) {
    0 < |draft| == |next| && draft[0] == Greedy(m, x) &&
    forall t | 0 <= t < |draft| :: next[t] == Greedy(m, Serial(m, hs, EmbedAll(m, draft)).1[t])
  }

  lemma {:induction false} MatchesGreedy<X, A, B>(m: Model<X, A, B>, hs: seq<Hist<A, B>>, x: X,
                                                  draft: seq<nat>, next: seq<nat>, t: nat)
    requires Verified(m, hs, x, draft, next) && 1 <= t <= |draft|
    requires forall i | 1 <= i < t :: draft[i] == next[i - 1]
    ensures draft[..t] == GreedyRun(m, hs, x, t).tokens
    ensures next[t - 1] == GreedyRun(m, hs, x, t + 1).tokens[t]
  {
    hide TokenLayers, Greedy, Serial, GreedyRun;
    GreedyNext(m, hs, x, t - 1);
    if t == 1 {
      GreedyNone(m, hs, x);
    } else {
      MatchesGreedy(m, hs, x, draft, next, t - 1);
      assert draft[..t] == draft[..t - 1] + [draft[t - 1]];
    }
    NextIsGreedy(m, hs, x, draft, t);
  }

  /** Losslessness: the accepted tokens and the correction are the first tokens of the greedy run, the accepted
      prefix is the longest one that matches it, and its histories are the greedy histories. */
  lemma Lossless<X, A, B>(m: Model<X, A, B>, hs: seq<Hist<A, B>>, x: X, draft: seq<nat>, next: seq<nat>)
    requires Verified(m, hs, x, draft, next)
    ensures
      var a := Accepted(draft, next, 1);
      var run := GreedyRun(m, hs, x, a + 1).tokens;
      draft[..a] + [next[a - 1]] == run && (a < |draft| ==> draft[a] != run[a])
    ensures
      var a := Accepted(draft, next, 1);
      Serial(m, hs, EmbedAll(m, draft[..a])).0 == GreedyRun(m, hs, x, a).hs
  {
    hide TokenLayers, Greedy, Serial, GreedyRun;
    var a := Accepted(draft, next, 1);
    MatchesGreedy(m, hs, x, draft, next, a);
    NextIsGreedy(m, hs, x, draft, a);
    GreedyNext(m, hs, x, a);
  }

  lemma GreedyNone<X, A, B>(m: Model<X, A, B>, hs: seq<Hist<A, B>>, x: X)
    ensures GreedyRun(m, hs, x, 0) == Run([], hs, x)
  {
  }

  // ---------------------------------------------------------------- the program

  /** `clone_f32_states_lab`: the live rows of every layer in fresh buffers of the given capacity. */
  method CloneStates<A, B>(src: seq<State<A, B>>, capacity: int, zeroLatent: A, zeroRope: B, ghost hs: seq<Hist<A, B>>)
      returns (ok: bool, dst: seq<State<A, B>>)
    requires Hold(src, hs)
    ensures ok <==> (|src| > 0 ==> 0 < capacity) && forall i | 0 <= i < |src| :: |hs[i].latents| <= capacity
    ensures ok ==> |dst| == |src| && Hold(dst, hs) && forall i | 0 <= i < |dst| :: dst[i].capacity == capacity
    ensures ok ==> fresh(dst) && fresh(LatentBuffers(dst)) && fresh(RopeBuffers(dst))
  {
    hide Separate, HistOf;
    HoldNone<A, B>();
    HoldLen(src, hs);
    dst := [];
    for l := 0 to |src|
      invariant Hold(src, hs)
      invariant l > 0 ==> 0 < capacity
      invariant forall i | 0 <= i < l :: |hs[i].latents| <= capacity
      invariant |dst| == l && Hold(dst, hs[..l])
      invariant forall i | 0 <= i < l :: dst[i].capacity == capacity
      invariant forall i | 0 <= i < l :: fresh(dst[i]) && fresh(dst[i].latent) && fresh(dst[i].rope)
    {
      HoldAt(src, hs, l);
      var done, copy := CloneLayer(src[l], capacity, zeroLatent, zeroRope, dst, hs[l], hs[..l]);
      if !done {
        return false, [];
      }
      dst := dst + [copy.value];
      assert hs[..l + 1] == hs[..l] + [hs[l]];
    }
    assert hs[..|src|] == hs;
    return true, dst;
  }

  lemma HoldNone<A, B>()
    ensures Hold<A, B>([], [])
  {
  }

  lemma HoldLen<A, B>(states: seq<State<A, B>>, hs: seq<Hist<A, B>>)
    requires Hold(states, hs)
    ensures |hs| == |states|
  {
  }

  lemma HoldAt<A, B>(states: seq<State<A, B>>, hs: seq<Hist<A, B>>, l: nat)
    requires Hold(states, hs) && l < |states|
    ensures |hs| == |states| && states[l].Valid() && HistOf(states[l]) == hs[l]
  {
  }

  /** One layer: its copy is apart from the copies before it. */
  method CloneLayer<A, B>(src: State<A, B>, capacity: int, zeroLatent: A, zeroRope: B, dst: seq<State<A, B>>,
                          ghost h: Hist<A, B>, ghost done: seq<Hist<A, B>>)
      returns (ok: bool, copy: Option<State<A, B>>)
    requires src.Valid() && HistOf(src) == h && Hold(dst, done)
    ensures ok == copy.Some? == (0 < capacity && |h.latents| <= capacity)
    ensures ok ==>
      fresh(copy.value) && fresh(copy.value.latent) && fresh(copy.value.rope) && copy.value.capacity == capacity
    ensures ok ==> Hold(dst + [copy.value], done + [h])
  {
    copy := src.Clone(capacity, zeroLatent, zeroRope);
    ok := copy.Some?;
    if ok {
      HoldSnoc(dst, done, copy.value, h);
    }
  }

  lemma HoldSnoc<A, B>(states: seq<State<A, B>>, hs: seq<Hist<A, B>>, last: State<A, B>, h: Hist<A, B>)
    requires Hold(states, hs) && last.Valid() && HistOf(last) == h
    requires forall i | 0 <= i < |states| ::
      states[i] != last && states[i].latent != last.latent && states[i].rope != last.rope &&
      states[i].latent as object != last.rope && states[i].rope as object != last.latent
    ensures Hold(states + [last], hs + [h])
  {
  }

  function Cut<A, B>(h: Hist<A, B>, n: nat): Hist<A, B> {
    if n <= |h.latents| && n <= |h.ropes| then Hist(h.latents[..n], h.ropes[..n]) else h
  }

  function CutAll<A, B>(hs: seq<Hist<A, B>>, n: nat, l: nat): (r: seq<Hist<A, B>>)
    requires l <= |hs|
    ensures |r| == |hs|
  {
    seq(|hs|, i requires 0 <= i < |hs| => if i < l then Cut(hs[i], n) else hs[i])
  }

  lemma CutNext<A, B>(hs: seq<Hist<A, B>>, n: nat, l: nat)
    requires l < |hs|
    ensures CutAll(hs, n, 0) == hs && CutAll(hs, n, l)[l] == hs[l]
    ensures CutAll(hs, n, l)[l := Cut(hs[l], n)] == CutAll(hs, n, l + 1)
  {
  }

  /** Truncate every layer; the dropped rows stay in the buffers. */
  method TruncateStates<A, B>(states: seq<State<A, B>>, newLen: nat, ghost hs: seq<Hist<A, B>>) returns (ok: bool)
    requires Hold(states, hs) && forall i | 0 <= i < |hs| :: newLen <= |hs[i].latents|
    modifies states
    ensures ok && Hold(states, CutAll(hs, newLen, |hs|))
  {
    assert CutAll(hs, newLen, 0) == hs;
    hide CutAll, Separate;
    for l := 0 to |states|
      invariant Hold(states, CutAll(hs, newLen, l))
    {
      CutNext(hs, newLen, l);
      HoldAt(states, CutAll(hs, newLen, l), l);
      var done := states[l].Truncate(newLen);
      if !done {
        return false;
      }
      assert forall i | 0 <= i < |states| && i != l :: HistOf(states[i]) == CutAll(hs, newLen, l)[i];
      HoldUpdated(states, CutAll(hs, newLen, l), l, Cut(hs[l], newLen));
    }
    return true;
  }

  /** Cutting the histories of a whole block back to its first `a` tokens gives the histories of those tokens. */
  lemma CutIsPrefix<X, A, B>(m: Model<X, A, B>, hs: seq<Hist<A, B>>, xs: seq<X>, a: nat, start: nat)
    requires a <= |xs| && forall i | 0 <= i < |hs| :: |hs[i].latents| == |hs[i].ropes| == start
    ensures CutAll(Serial(m, hs, xs).0, start + a, |hs|) == Serial(m, hs, xs[..a]).0
    ensures forall i | 0 <= i < |hs| :: |Serial(m, hs, xs[..a]).0[i].latents| == start + a
  {
    hide Serial;
    SerialPrefix(m, hs, xs, a);
    SerialGrows(m, hs, xs[..a]);
    var long, short := Serial(m, hs, xs).0, Serial(m, hs, xs[..a]).0;
    forall i | 0 <= i < |hs|
      ensures CutAll(long, start + a, |hs|)[i] == short[i]
    {
      assert Extends(long[i], short[i], |xs| - a) && Extends(short[i], hs[i], a);
    }
  }

  /** The accept loop. */
  method AcceptLoop(draft: seq<nat>, next: seq<nat>) returns (accept: nat)
    requires 0 < |draft| == |next|
    ensures accept == Accepted(draft, next, 1)
  {
    accept := 1;
    var t := 1;
    while t < |draft|
      invariant t == accept <= |draft| && Accepted(draft, next, 1) == Accepted(draft, next, t)
    {
      if draft[t] != next[t - 1] {
        break;
      }
      accept := accept + 1;
      t := t + 1;
    }
  }

  lemma EmbeddedIsEmbedAll<X, A, B>(m: Model<X, A, B>, tokens: seq<nat>)
    requires forall t | 0 <= t < |tokens| :: m.TokenOk(tokens[t])
    ensures Embedded(m, tokens) == EmbedAll(m, tokens)
  {
  }

  /** The verifier's block pass, as the serial walk it equals. */
  method VerifyBlock<X, A, B>(m: Model<X, A, B>, states: seq<State<A, B>>, draft: seq<nat>, start: nat,
                              ghost hs: seq<Hist<A, B>>)
      returns (ok: bool, next: seq<nat>)
    requires |states| == m.layers == |hs| && Hold(states, hs) && Fits(states, hs, start, |draft|)
    requires |draft| > 0 && forall t | 0 <= t < |draft| :: m.TokenOk(draft[t])
    modifies states, LatentBuffers(states), RopeBuffers(states)
    ensures ok && Hold(states, Serial(m, hs, EmbedAll(m, draft)).0)
    ensures |next| == |draft| && forall t | 0 <= t < |draft| ::
      next[t] == Greedy(m, Serial(m, hs, EmbedAll(m, draft)).1[t])
  {
    hide Block, Serial, Embedded, Hold, Fits, Greedy;
    ghost var xs := EmbedAll(m, draft);
    EmbeddedIsEmbedAll(m, draft);
    LoopInterchange(m, hs, xs);
    var logits;
    ok, next, logits := ForwardBlock(m, states, draft, start, hs);
  }

  /** Roll back to the accepted prefix, unless the whole block was accepted. */
  method RollBack<X, A, B>(m: Model<X, A, B>, states: seq<State<A, B>>, draft: seq<nat>, accept: nat, start: nat,
                           ghost hs: seq<Hist<A, B>>)
      returns (ok: bool)
    requires |states| == |hs| && 0 < accept <= |draft|
    requires forall i | 0 <= i < |hs| :: |hs[i].latents| == |hs[i].ropes| == start
    requires Hold(states, Serial(m, hs, EmbedAll(m, draft)).0)
    modifies states
    ensures ok && Hold(states, Serial(m, hs, EmbedAll(m, draft[..accept])).0)
  {
    hide Serial, Hold;
    ghost var xs := EmbedAll(m, draft);
    assert xs[..accept] == EmbedAll(m, draft[..accept]);
    if accept < |draft| {
      SerialGrows(m, hs, xs);
      CutIsPrefix(m, hs, xs, accept, start);
      ok := TruncateStates(states, start + accept, Serial(m, hs, xs).0);
    } else {
      assert draft[..accept] == draft;
      ok := true;
    }
  }

  /** One speculation cycle after the prompt: `draft[0]` is the greedy choice, the other drafted tokens are arbitrary.
      No step can fail, and tokens, states and logits are those of the serial greedy run of `accept + 1` tokens. */
  method Cycle<X, A, B>(m: Model<X, A, B>, states: seq<State<A, B>>, prefillLogits: seq<real>, tail: seq<nat>,
                        start: nat, ghost hs: seq<Hist<A, B>>, ghost x: X)
      returns (ok: bool, draft: seq<nat>, accept: nat, correction: nat, logits: seq<real>)
    requires m.vocab > 0 && |states| == m.layers == |hs| && Hold(states, hs) && Fits(states, hs, start, |tail| + 2)
    requires prefillLogits == m.Logits(x) && forall t | 0 <= t < |tail| :: m.TokenOk(tail[t])
    modifies states, LatentBuffers(states), RopeBuffers(states)
    ensures ok && draft == [Greedy(m, x)] + tail && 1 <= accept <= |draft|
    ensures draft[..accept] + [correction] == GreedyRun(m, hs, x, accept + 1).tokens
    ensures accept < |draft| ==> draft[accept] != correction
    ensures Hold(states, GreedyRun(m, hs, x, accept + 1).hs)
    ensures logits == m.Logits(GreedyRun(m, hs, x, accept + 1).x)
  {
    assert forall i | 0 <= i < |hs| :: |hs[i].latents| == |hs[i].ropes| == start by {
      HoldRows(states, hs);
    }
    FitsLess(states, hs, start, |tail| + 2, |tail| + 1);
    hide Serial, Hold, GreedyRun, TokenLayers, Greedy, Accepted, Fits;
    var first := ArgMaxLoop(prefillLogits);
    assert first == Greedy(m, x) by { GreedyIsArgMax(m, x); }
    draft := [first] + tail;
    var next: seq<nat>;
    ok, next := VerifyBlock(m, states, draft, start, hs);
    ok, accept, correction, logits := Settle(m, states, draft, next, start, hs, x);
  }

  /** Accept, roll back and commit after the verifier's pass. */
  method Settle<X, A, B>(m: Model<X, A, B>, states: seq<State<A, B>>, draft: seq<nat>, next: seq<nat>, start: nat,
                         ghost hs: seq<Hist<A, B>>, ghost x: X)
      returns (ok: bool, accept: nat, correction: nat, logits: seq<real>)
    requires m.vocab > 0 && |states| == m.layers == |hs| && Fits(states, hs, start, |draft| + 1)
    requires forall i | 0 <= i < |hs| :: |hs[i].latents| == |hs[i].ropes| == start
    requires Hold(states, Serial(m, hs, EmbedAll(m, draft)).0)
    requires Verified(m, hs, x, draft, next)
    modifies states, LatentBuffers(states), RopeBuffers(states)
    ensures ok && 1 <= accept <= |draft|
    ensures draft[..accept] + [correction] == GreedyRun(m, hs, x, accept + 1).tokens
    ensures accept < |draft| ==> draft[accept] != correction
    ensures Hold(states, GreedyRun(m, hs, x, accept + 1).hs)
    ensures logits == m.Logits(GreedyRun(m, hs, x, accept + 1).x)
  {
    hide Serial, Hold, GreedyRun, TokenLayers, Greedy, Fits, Accepted;
    accept := AcceptLoop(draft, next);
    correction := next[accept - 1];
    Lossless(m, hs, x, draft, next);
    assert correction == GreedyRun(m, hs, x, accept + 1).tokens[accept] by {
      assert (draft[..accept] + [correction])[accept] == correction;
    }
    CommitFits(m, states, hs, draft, accept, start);
    ok := RollBack(m, states, draft, accept, start, hs);
    ok, logits := Commit(m, states, correction, start + accept, accept, hs, x);
  }

  lemma CommitFits<X, A, B>(m: Model<X, A, B>, states: seq<State<A, B>>, hs: seq<Hist<A, B>>, draft: seq<nat>,
                            accept: nat, start: nat)
    requires |states| == |hs| && accept <= |draft| && Fits(states, hs, start, |draft| + 1)
    requires forall i | 0 <= i < |hs| :: |hs[i].latents| == |hs[i].ropes| == start
    ensures Fits(states, Serial(m, hs, EmbedAll(m, draft[..accept])).0, start + accept, 1)
  {
    hide Serial;
    CutIsPrefix(m, hs, EmbedAll(m, draft), accept, start);
    assert EmbedAll(m, draft)[..accept] == EmbedAll(m, draft[..accept]);
  }

  lemma FitsLess<A, B>(states: seq<State<A, B>>, hs: seq<Hist<A, B>>, start: int, room: nat, less: nat)
    requires |hs| == |states| && Fits(states, hs, start, room) && less <= room
    ensures Fits(states, hs, start, less)
  {
  }

  /** The forward pass of the correction. */
  method Commit<X, A, B>(m: Model<X, A, B>, states: seq<State<A, B>>, token: nat, position: nat, ghost n: nat,
                         ghost hs: seq<Hist<A, B>>, ghost x: X) returns (ok: bool, logits: seq<real>)
    requires m.vocab > 0 && |states| == m.layers == |hs| && Hold(states, GreedyRun(m, hs, x, n).hs)
    requires Fits(states, GreedyRun(m, hs, x, n).hs, position, 1) && token == GreedyRun(m, hs, x, n + 1).tokens[n]
    modifies states, LatentBuffers(states), RopeBuffers(states)
    ensures ok && Hold(states, GreedyRun(m, hs, x, n + 1).hs) && logits == m.Logits(GreedyRun(m, hs, x, n + 1).x)
  {
    hide Hold, GreedyRun, TokenLayers, Greedy;
    GreedyNext(m, hs, x, n);
    ok, logits := ForwardToken(m, states, token, position, GreedyRun(m, hs, x, n).hs);
  }

  lemma HoldRows<A, B>(states: seq<State<A, B>>, hs: seq<Hist<A, B>>)
    requires Hold(states, hs)
    ensures forall i | 0 <= i < |hs| :: |hs[i].latents| == |hs[i].ropes|
  {
    forall i | 0 <= i < |hs|
      ensures |hs[i].latents| == |hs[i].ropes|
    {
      assert HistOf(states[i]) == hs[i];
    }
  }

  lemma GreedyIsArgMax<X, A, B>(m: Model<X, A, B>, x: X)
    requires m.vocab > 0
    ensures Greedy(m, x) == ArgMax(m.Logits(x), m.vocab)
  {
  }

  /** The serial baseline: one greedy token after another, by `forward_token`. */
  method Baseline<X, A, B>(m: Model<X, A, B>, states: seq<State<A, B>>, prefillLogits: seq<real>, n: nat, start: nat,
                           ghost hs: seq<Hist<A, B>>, ghost x: X)
      returns (ok: bool, tokens: seq<nat>, logits: seq<real>)
    requires m.vocab > 0 && |states| == m.layers == |hs| && Hold(states, hs) && Fits(states, hs, start, n)
    requires prefillLogits == m.Logits(x)
    modifies states, LatentBuffers(states), RopeBuffers(states)
    ensures ok && tokens == GreedyRun(m, hs, x, n).tokens
    ensures Hold(states, GreedyRun(m, hs, x, n).hs) && logits == m.Logits(GreedyRun(m, hs, x, n).x)
  {
    hide Hold, GreedyRun, TokenLayers, Greedy;
    GreedyNone(m, hs, x);
    tokens, logits := [], prefillLogits;
    for t := 0 to n
      invariant Hold(states, GreedyRun(m, hs, x, t).hs)
      invariant tokens == GreedyRun(m, hs, x, t).tokens && logits == m.Logits(GreedyRun(m, hs, x, t).x)
      invariant Fits(states, GreedyRun(m, hs, x, t).hs, start + t, n - t)
    {
      ghost var before := GreedyRun(m, hs, x, t);
      GreedyNext(m, hs, x, t);
      GreedyIsArgMax(m, before.x);
      var token := ArgMaxLoop(logits);
      var done;
      done, logits := ForwardToken(m, states, token, start + t, before.hs);
      TokenLayersGrow(m, before.hs, m.embed(token), m.layers);
      tokens := tokens + [token];
    }
    return true, tokens, logits;
  }

  lemma {:induction false} PrefilledLen<X, A, B>(m: Model<X, A, B>, xs: seq<X>, l: nat)
    ensures forall i | 0 <= i < l :: |Prefilled(m, xs, l).0[i].latents| == |xs|
  {
    if l > 0 {
      PrefilledLen(m, xs, l - 1);
    }
  }

  /** Cutting a longer greedy run back gives the shorter one. */
  lemma GreedyCut<X, A, B>(m: Model<X, A, B>, hs: seq<Hist<A, B>>, x: X, a: nat, n: nat, start: nat)
    requires a <= n && forall i | 0 <= i < |hs| :: |hs[i].latents| == |hs[i].ropes| == start
    ensures CutAll(GreedyRun(m, hs, x, n).hs, start + a, |hs|) == GreedyRun(m, hs, x, a).hs
    ensures forall i | 0 <= i < |hs| :: start + a <= |GreedyRun(m, hs, x, n).hs[i].latents|
  {
    hide Serial, GreedyRun, Greedy;
    GreedyIsSerial(m, hs, x, n);
    GreedyIsSerial(m, hs, x, a);
    GreedyPrefix(m, hs, x, a, n);
    var xs := EmbedAll(m, GreedyRun(m, hs, x, n).tokens);
    assert xs[..a] == EmbedAll(m, GreedyRun(m, hs, x, a).tokens);
    CutIsPrefix(m, hs, xs, a, start);
    SerialGrows(m, hs, xs);
  }

  /** The token comparison at the end of a cycle. */
  method CompareTokens(draft: seq<nat>, accept: nat, correction: nat, serial: seq<nat>) returns (seqOk: bool)
    requires accept <= |draft| && accept < |serial|
    ensures seqOk <==> draft[..accept] + [correction] == serial[..accept + 1]
  {
    seqOk := true;
    for t := 0 to accept
      invariant seqOk <==> draft[..t] == serial[..t]
    {
      if draft[t] != serial[t] {
        seqOk := false;
      }
      assert draft[..t + 1] == draft[..t] + [draft[t]] && serial[..t + 1] == serial[..t] + [serial[t]];
    }
    if correction != serial[accept] {
      seqOk := false;
    }
    assert serial[..accept + 1] == serial[..accept] + [serial[accept]];
  }

  /** The serial states cut back to the speculated length, in fresh buffers. */
  method SerialStates<X, A, B>(m: Model<X, A, B>, base: seq<State<A, B>>, prefillLogits: seq<real>, n: nat, start: nat,
                               capacity: nat,
                               zeroLatent: A, zeroRope: B, ghost hs: seq<Hist<A, B>>, ghost x: X)
      returns (ok: bool, baseline: seq<State<A, B>>, tokens: seq<nat>)
    requires m.vocab > 0 && |base| == m.layers == |hs| && Hold(base, hs) && prefillLogits == m.Logits(x)
    requires start + n <= capacity && 0 < capacity && forall i | 0 <= i < |hs| :: |hs[i].latents| == start
    ensures ok && |baseline| == |hs| && Hold(baseline, GreedyRun(m, hs, x, n).hs) &&
      tokens == GreedyRun(m, hs, x, n).tokens
    ensures Hold(base, hs)
    ensures fresh(baseline) && fresh(LatentBuffers(baseline)) && fresh(RopeBuffers(baseline))
  {
    hide GreedyRun, Greedy;
    ok, baseline := CloneStates(base, capacity, zeroLatent, zeroRope, hs);
    if !ok {
      assert false;
    }
    var logits;
    ok, tokens, logits := Baseline(m, baseline, prefillLogits, n, start, hs, x);
    assert forall i | 0 <= i < |base| :: unchanged(base[i]) && unchanged(base[i].latent) && unchanged(base[i].rope);
  }

  /** How a cycle that started from the histories `hs` and the activation `x` ends: the first drafted token is the
      greedy one, the accepted prefix is the longest that matches, accepted tokens and correction are the greedy run of
      that length, and both the speculated and the serial states hold its histories. */
  ghost predicate Resolved<X, A, B>(m: Model<X, A, B>, hs: seq<Hist<A, B>>, x: X, tail: seq<nat>,
                                    draft: seq<nat>, accept: nat, correction: nat,
                                    target: seq<State<A, B>>, serial: seq<State<A, B>>)
    reads target, LatentBuffers(target), RopeBuffers(target), serial, LatentBuffers(serial), RopeBuffers(serial)
  {
    var run := GreedyRun(m, hs, x, accept + 1);
    draft == [Greedy(m, x)] + tail && 1 <= accept <= |draft| &&
    draft[..accept] + [correction] == run.tokens && (accept < |draft| ==> draft[accept] != correction) &&
    Hold(target, run.hs) && Hold(serial, run.hs)
  }

  /** The program: prefill, a serial baseline and a speculation cycle from copies of the prefilled states, then the
      comparison.  With buffers of `prompt + block + 1` rows no step fails, and tokens and states agree whatever is
      drafted. */
  method SelfSpecMain<X, A, B>(m: Model<X, A, B>, base: seq<State<A, B>>, prompt: seq<int>, tail: seq<nat>,
                               zeroLatent: A, zeroRope: B,
                               ghost empty: seq<Hist<A, B>>)
      returns (ok: bool, seqOk: bool, draft: seq<nat>, accept: nat, correction: nat,
               target: seq<State<A, B>>, serial: seq<State<A, B>>)
    requires m.vocab > 0 && |base| == m.layers == |empty| && Hold(base, empty) &&
      Fits(base, empty, 0, |prompt| + |tail| + 2)
    requires |prompt| > 0 && (forall t | 0 <= t < |prompt| :: m.TokenOk(prompt[t])) &&
      forall t | 0 <= t < |tail| :: m.TokenOk(tail[t])
    modifies base, LatentBuffers(base), RopeBuffers(base)
    ensures var p := Prefilled(m, Embedded(m, prompt), m.layers);
            |p.1| == |prompt| && ok && seqOk &&
            Resolved(m, p.0, p.1[|prompt| - 1], tail, draft, accept, correction, target, serial)
  {
    hide Hold, GreedyRun, Prefilled, Greedy, Embedded, Fits;
    EmbeddedLen(m, prompt);
    var capacity, start := |prompt| + |tail| + 2, |prompt|;
    FitsLess(base, empty, 0, capacity, start);
    target, serial, seqOk, draft, accept, correction := [], [], false, [], 0, 0;
    var prefillLogits;
    ok, prefillLogits := PrefillPrompt(m, base, prompt, empty);
    ghost var xs := Embedded(m, prompt);
    ghost var hs, x := Prefilled(m, xs, m.layers).0, Prefilled(m, xs, m.layers).1[start - 1];
    PrefilledLen(m, xs, m.layers);
    ok, seqOk, draft, accept, correction, target, serial :=
      Compare(m, base, prefillLogits, tail, start, capacity, zeroLatent, zeroRope, hs, x);
  }

  /** A speculation cycle on fresh copies of `base`; other states are left alone. */
  method SpecStates<X, A, B>(m: Model<X, A, B>, base: seq<State<A, B>>, prefillLogits: seq<real>, tail: seq<nat>,
                             start: nat, capacity: nat,
                             zeroLatent: A, zeroRope: B, ghost hs: seq<Hist<A, B>>, ghost x: X,
                             ghost kept: seq<State<A, B>>, ghost keptHs: seq<Hist<A, B>>)
      returns (ok: bool, target: seq<State<A, B>>, draft: seq<nat>, accept: nat, correction: nat)
    requires m.vocab > 0 && |base| == m.layers == |hs| && Hold(base, hs) && prefillLogits == m.Logits(x)
    requires start + |tail| + 2 <= capacity && forall i | 0 <= i < |hs| :: |hs[i].latents| == start
    requires Hold(kept, keptHs) && forall t | 0 <= t < |tail| :: m.TokenOk(tail[t])
    ensures ok && draft == [Greedy(m, x)] + tail && 1 <= accept <= |draft|
    ensures Hold(target, GreedyRun(m, hs, x, accept + 1).hs) && (accept < |draft| ==> draft[accept] != correction)
    ensures draft[..accept] + [correction] == GreedyRun(m, hs, x, accept + 1).tokens
    ensures Hold(kept, keptHs)
  {
    hide GreedyRun, Greedy;
    draft, accept, correction := [], 0, 0;
    ok, target := CloneStates(base, capacity, zeroLatent, zeroRope, hs);
    if !ok {
      assert false;
    }
    var logits;
    ok, draft, accept, correction, logits := Cycle(m, target, prefillLogits, tail, start, hs, x);
    assert forall i | 0 <= i < |kept| :: unchanged(kept[i]) && unchanged(kept[i].latent) && unchanged(kept[i].rope);
  }

  /** Compare the tokens, and cut copies of the serial states back to the resolved length. */
  method Judge<A, B>(draft: seq<nat>, accept: nat, correction: nat, tokens: seq<nat>,
                     serial: seq<State<A, B>>, newLen: nat, capacity: nat, zeroLatent: A, zeroRope: B,
                     ghost hs: seq<Hist<A, B>>, ghost kept: seq<State<A, B>>, ghost keptHs: seq<Hist<A, B>>)
      returns (ok: bool, seqOk: bool, cmp: seq<State<A, B>>)
    requires accept <= |draft| && accept < |tokens|
    requires Hold(serial, hs) && Hold(kept, keptHs)
    requires 0 < capacity && forall i | 0 <= i < |hs| :: newLen <= |hs[i].latents| <= capacity
    ensures ok && Hold(cmp, CutAll(hs, newLen, |hs|)) && Hold(kept, keptHs)
    ensures seqOk <==> draft[..accept] + [correction] == tokens[..accept + 1]
  {
    seqOk := CompareTokens(draft, accept, correction, tokens);
    ok, cmp := CloneStates(serial, capacity, zeroLatent, zeroRope, hs);
    if !ok {
      assert false;
    }
    ok := TruncateStates(cmp, newLen, hs);
    assert forall i | 0 <= i < |kept| :: unchanged(kept[i]) && unchanged(kept[i].latent) && unchanged(kept[i].rope);
  }

  /** The part of the program after the prompt. */
  method Compare<X, A, B>(m: Model<X, A, B>, base: seq<State<A, B>>, prefillLogits: seq<real>, tail: seq<nat>,
                          start: nat, capacity: nat,
                          zeroLatent: A, zeroRope: B, ghost hs: seq<Hist<A, B>>, ghost x: X)
      returns (ok: bool, seqOk: bool, draft: seq<nat>, accept: nat, correction: nat,
               target: seq<State<A, B>>, cmp: seq<State<A, B>>)
    requires m.vocab > 0 && |base| == m.layers == |hs| && Hold(base, hs) && prefillLogits == m.Logits(x)
    requires start + |tail| + 2 <= capacity && forall i | 0 <= i < |hs| :: |hs[i].latents| == start
    requires forall t | 0 <= t < |tail| :: m.TokenOk(tail[t])
    ensures ok && seqOk && Resolved(m, hs, x, tail, draft, accept, correction, target, cmp)
  {
    hide Hold, GreedyRun, Greedy;
    var serial, serialTokens;
    var n := |tail| + 2;
    HoldRows(base, hs);
    ok, serial, serialTokens := SerialStates(m, base, prefillLogits, n, start, capacity, zeroLatent, zeroRope, hs, x);
    ghost var run := GreedyRun(m, hs, x, n).hs;
    ok, target, draft, accept, correction :=
      SpecStates(m, base, prefillLogits, tail, start, capacity, zeroLatent, zeroRope, hs, x, serial, run);
    GreedyPrefix(m, hs, x, accept + 1, n);
    ghost var final := GreedyRun(m, hs, x, accept + 1).hs;
    GreedyCut(m, hs, x, accept + 1, n, start);
    GreedyLen(m, hs, x, n, start);
    ok, seqOk, cmp := Judge(draft, accept, correction, serialTokens, serial, start + accept + 1, capacity, zeroLatent,
                            zeroRope, run, target, final);
  }

  lemma GreedyLen<X, A, B>(m: Model<X, A, B>, hs: seq<Hist<A, B>>, x: X, n: nat, start: nat)
    requires forall i | 0 <= i < |hs| :: |hs[i].latents| == start
    ensures forall i | 0 <= i < |hs| :: |GreedyRun(m, hs, x, n).hs[i].latents| == start + n
  {
    hide Serial, GreedyRun, Greedy;
    GreedyIsSerial(m, hs, x, n);
    SerialGrows(m, hs, EmbedAll(m, GreedyRun(m, hs, x, n).tokens));
  }
}
