/** The kernel that keeps every key and value: expanded incremental decode. */
module MlaExpanded {
  import opened Indexing
  import opened Vectors
  import opened Mla
  import opened MlaLoops
  import opened MlaDecode

  /** Rows `0 .. n` of head `h`. */
  function Column(a: array2<Vec>, h: nat, n: nat): (c: seq<Vec>)
    requires h < a.Length1 && n <= a.Length0
    reads a
    ensures |c| == n && forall j | 0 <= j < n :: c[j] == a[j, h]
  {
    seq(n, j requires 0 <= j < n reads a => a[j, h])
  }

  class ExpandedState {
    const capacity: nat
    const heads: nat
    const nope: nat
    const ropeDim: nat
    const valueDim: nat
    var len: nat
    const keys: array2<Vec>
    const values: array2<Vec>

    ghost predicate Valid()
      reads this
    {
      keys.Length0 == values.Length0 == capacity && keys.Length1 == values.Length1 == heads &&
      keys != values && len <= capacity
    }

    /** The live rows are the keys and values of the inputs `xs`. */
    ghost predicate Holds(m: Layer, xs: seq<Vec>)
      requires Valid() && heads == m.heads
      reads this, keys, values
    {
      len == |xs| &&
      (forall h: nat | h < heads :: Column(keys, h, len) == KeysOf(m, xs, h)) &&
      (forall h: nat | h < heads :: Column(values, h, len) == ValuesOf(m, xs, h))
    }

    /** `kvl_mla_state_init`, once its shape tests have passed. */
    constructor (capacity: nat, heads: nat, nope: nat, ropeDim: nat, valueDim: nat)
      ensures Valid() && len == 0 && fresh(keys) && fresh(values)
      ensures this.capacity == capacity && this.heads == heads && this.nope == nope
      ensures this.ropeDim == ropeDim && this.valueDim == valueDim
    {
      this.capacity, this.heads, this.nope, this.ropeDim, this.valueDim, len := capacity, heads, nope, ropeDim,
        valueDim, 0;
      keys := new Vec[capacity, heads]((_, _) => []);
      values := new Vec[capacity, heads]((_, _) => []);
    }

    ghost predicate Accepts(m: Layer, position: int)
      reads this
    {
      position == len && position < capacity && heads == m.heads && nope == m.nope && ropeDim == m.ropeDim &&
      valueDim == m.valueDim && m.hidden > 0 && m.rank > 0 && m.ropeDim > 0 && m.ropeDim % 2 == 0 && m.theta > 0.0
    }
  }

  // ---------------------------------------------------------------- the key and value of one head

  lemma ExpandedAt(m: Layer, latent: Vec, kvtmp: Vec, h: nat, d: nat)
    requires h < m.heads && d < m.KvDim()
    requires kvtmp == MatVec(m.kvB, latent, m.rank, m.heads * m.KvDim())
    ensures At(kvtmp, Flat(h, d, m.KvDim())) == Dot(Row(m.kvB, Flat(h, d, m.KvDim())), latent, m.rank)
  {
    FlatInRange(h, d, m.heads, m.KvDim());
  }

  /** Splitting the flat expansion of a latent into the key part and the value part of head `h`. */
  method KeyValueLoop(m: Layer, latent: Vec, kvtmp: Vec, rope: Vec, h: nat) returns (key: Vec, value: Vec)
    requires h < m.heads && kvtmp == MatVec(m.kvB, latent, m.rank, m.heads * m.KvDim())
    ensures key == KeyNope(m, latent, h) + rope && value == Value(m, latent, h)
  {
    hide Dot, Flat;
    var nope := seq(m.nope, d requires 0 <= d => At(kvtmp, Flat(h, d, m.KvDim())));
    value := seq(m.valueDim, d requires 0 <= d => At(kvtmp, Flat(h, m.nope + d, m.KvDim())));
    forall d: nat | d < m.nope
      ensures nope[d] == KeyNope(m, latent, h)[d]
    {
      ExpandedAt(m, latent, kvtmp, h, d);
    }
    forall d: nat | d < m.valueDim
      ensures value[d] == Value(m, latent, h)[d]
    {
      ExpandedAt(m, latent, kvtmp, h, m.nope + d);
    }
    assert nope == KeyNope(m, latent, h);
    assert value == Value(m, latent, h);
    key := nope + rope;
  }

  // ---------------------------------------------------------------- expanded decode

  /** Head `h` of expanded decode over its stored keys and values, the row of `x` included. */
  function ExpandedHead(m: Layer, x: Vec, pos: nat, keys: seq<Vec>, values: seq<Vec>, h: nat): Vec {
    AttendHead(m, Query(m, x, pos, h), keys + [KeyRow(m, x, pos, h)], values + [ValueRow(m, x, h)])
  }

  /** What expanded decode computes for `x` over the stored keys and values of every head. */
  function Expanded(m: Layer, x: Vec, pos: nat, keys: seq<seq<Vec>>, values: seq<seq<Vec>>): Vec
    requires |keys| == |values| == m.heads
  {
    Project(m, seq(m.heads, h requires 0 <= h < m.heads => ExpandedHead(m, x, pos, keys[h], values[h], h)))
  }

  function KeyCells(m: Layer, x: Vec, pos: nat): (cells: seq<Vec>)
    ensures |cells| == m.heads
  {
    seq(m.heads, h requires 0 <= h => KeyRow(m, x, pos, h))
  }

  function ValueCells(m: Layer, x: Vec): (cells: seq<Vec>)
    ensures |cells| == m.heads
  {
    seq(m.heads, h requires 0 <= h => ValueRow(m, x, h))
  }

  ghost function Columns(a: array2<Vec>, n: nat): (cols: seq<seq<Vec>>)
    requires n <= a.Length0
    reads a
    ensures |cols| == a.Length1 && forall h: nat | h < a.Length1 :: cols[h] == Column(a, h, n)
  {
    seq(a.Length1, h requires 0 <= h < a.Length1 reads a => Column(a, h, n))
  }

  /** The rows before `pos` are `cols`; in the first `n` heads row `pos` is `cells`. */
  ghost predicate Stored(a: array2<Vec>, cols: seq<seq<Vec>>, cells: seq<Vec>, pos: nat, n: nat)
    requires pos < a.Length0 && |cols| == |cells| == a.Length1
    reads a
  {
    n <= a.Length1 &&
    (forall k: nat | k < a.Length1 :: Column(a, k, pos) == cols[k]) &&
    (forall k: nat | k < n :: Column(a, k, pos + 1) == cols[k] + [cells[k]])
  }

  method StoreCell(a: array2<Vec>, pos: nat, h: nat, v: Vec, ghost cols: seq<seq<Vec>>, ghost cells: seq<Vec>)
    requires pos < a.Length0 && h < a.Length1 && |cols| == |cells| == a.Length1
    requires Stored(a, cols, cells, pos, h) && v == cells[h]
    modifies a
    ensures Stored(a, cols, cells, pos, h + 1)
  {
    ghost var was := Columns(a, pos + 1);
    a[pos, h] := v;
    assert forall k: nat | k < h :: Column(a, k, pos + 1) == was[k];
    assert Column(a, h, pos + 1) == cols[h] + [v];
  }

  lemma StoredNone(a: array2<Vec>, cells: seq<Vec>, pos: nat)
    requires pos < a.Length0 && |cells| == a.Length1
    ensures Stored(a, Columns(a, pos), cells, pos, 0)
  {
  }

  method QueryHeadLoop(m: Layer, x: Vec, qtmp: Vec, pos: nat, h: nat, keys: seq<Vec>, values: seq<Vec>)
      returns (ho: Vec)
    requires m.ropeDim % 2 == 0 && h < m.heads && |keys| > 0
    requires qtmp == MatVec(m.qProj, x, m.hidden, m.heads * m.QueryDim())
    ensures ho == AttendHead(m, Query(m, x, pos, h), keys, values)
  {
    hide Dot, Flat, AttendHead;
    var qNope, qRope := QueryLoop(m, x, qtmp, pos, h);
    ho := HeadLoop(m, qNope + qRope, keys, values);
  }

  /** One head: its new key and value are stored, then its whole column is read back. */
  method ExpandedHeadStep(m: Layer, aKeys: array2<Vec>, aValues: array2<Vec>, x: Vec, pos: nat, h: nat,
                          qtmp: Vec, latent: Vec, kvtmp: Vec, rope: Vec,
                          ghost keys: seq<seq<Vec>>, ghost values: seq<seq<Vec>>) returns (ho: Vec)
    requires m.ropeDim % 2 == 0 && h < m.heads == aKeys.Length1 == aValues.Length1
    requires pos < aKeys.Length0 && pos < aValues.Length0 && aKeys != aValues && |keys| == |values| == m.heads
    requires qtmp == MatVec(m.qProj, x, m.hidden, m.heads * m.QueryDim())
    requires latent == Latent(m, x) && kvtmp == MatVec(m.kvB, latent, m.rank, m.heads * m.KvDim()) &&
      rope == RopeKey(m, x, pos)
    requires Stored(aKeys, keys, KeyCells(m, x, pos), pos, h) && Stored(aValues, values, ValueCells(m, x), pos, h)
    modifies aKeys, aValues
    ensures Stored(aKeys, keys, KeyCells(m, x, pos), pos, h + 1) &&
      Stored(aValues, values, ValueCells(m, x), pos, h + 1)
    ensures ho == ExpandedHead(m, x, pos, keys[h], values[h], h)
  {
    hide Dot, Latent, RopeKey, KeyNope, Value, Query, AttendHead, Stored;
    var key, value := KeyValueLoop(m, latent, kvtmp, rope, h);
    StoreCell(aKeys, pos, h, key, keys, KeyCells(m, x, pos));
    StoreCell(aValues, pos, h, value, values, ValueCells(m, x));
    ho := QueryHeadLoop(m, x, qtmp, pos, h, Column(aKeys, h, pos + 1), Column(aValues, h, pos + 1));
  }

  method ExpandedLoop(m: Layer, aKeys: array2<Vec>, aValues: array2<Vec>, x: Vec, pos: nat) returns (out: Vec)
    requires m.ropeDim % 2 == 0 && m.heads == aKeys.Length1 == aValues.Length1
    requires pos < aKeys.Length0 && pos < aValues.Length0 && aKeys != aValues
    modifies aKeys, aValues
    ensures Stored(aKeys, old(Columns(aKeys, pos)), KeyCells(m, x, pos), pos, m.heads)
    ensures Stored(aValues, old(Columns(aValues, pos)), ValueCells(m, x), pos, m.heads)
    ensures out == Expanded(m, x, pos, old(Columns(aKeys, pos)), old(Columns(aValues, pos)))
  {
    hide Dot, Latent, RopeKey, ExpandedHead, KeyCells, ValueCells, Stored, Project;
    var queries := MatVecLoop(x, m.qProj, m.hidden, m.heads * m.QueryDim());
    var qtmp := queries[..];
    var latent, rope := CompressLoop(m, x, pos);
    var expanded := MatVecLoop(latent, m.kvB, m.rank, m.heads * m.KvDim());
    var kvtmp := expanded[..];
    ghost var keys, values := Columns(aKeys, pos), Columns(aValues, pos);
    StoredNone(aKeys, KeyCells(m, x, pos), pos);
    StoredNone(aValues, ValueCells(m, x), pos);
    ghost var spec := seq(m.heads, h requires 0 <= h < m.heads => ExpandedHead(m, x, pos, keys[h], values[h], h));
    var heads: seq<Vec> := [];
    for h := 0 to m.heads
      invariant Stored(aKeys, keys, KeyCells(m, x, pos), pos, h) && Stored(aValues, values, ValueCells(m, x), pos, h)
      invariant heads == spec[..h]
    {
      var ho := ExpandedHeadStep(m, aKeys, aValues, x, pos, h, qtmp, latent, kvtmp, rope, keys, values);
      heads := heads + [ho];
    }
    assert heads == spec;
    out := ProjectLoop(m, heads);
  }

  /** `kvl_mla_decode_bf16`: each head stores its own key and value just before it reads the history. */
  method DecodeExpanded(m: Layer, state: ExpandedState, x: Vec, position: int) returns (ok: bool, out: Vec)
    requires state.Valid()
    modifies state`len, state.keys, state.values
    ensures state.Valid()
    ensures ok <==> old(state.Accepts(m, position))
    ensures !ok ==> state.len == old(state.len) && unchanged(state.keys) && unchanged(state.values)
    ensures ok ==> state.len == old(state.len) + 1
    ensures ok ==> Stored(state.keys, old(Columns(state.keys, position)), KeyCells(m, x, position), position, m.heads)
    ensures ok ==> Stored(state.values, old(Columns(state.values, position)), ValueCells(m, x), position, m.heads)
    ensures ok ==>
      out == Expanded(m, x, position, old(Columns(state.keys, position)), old(Columns(state.values, position)))
  {
    if position != state.len || position < 0 || position >= state.capacity || state.heads != m.heads ||
       state.nope != m.nope || state.ropeDim != m.ropeDim || state.valueDim != m.valueDim ||
       m.hidden == 0 || m.rank == 0 || m.ropeDim == 0 || m.ropeDim % 2 == 1 || m.theta <= 0.0 {
      return false, [];
    }
    out := ExpandedLoop(m, state.keys, state.values, x, position);
    state.len := position + 1;
    return true, out;
  }

  // ---------------------------------------------------------------- expanded = causal = absorbed

  lemma ColumnsGrow(m: Layer, xs: seq<Vec>, x: Vec, h: nat)
    requires h < m.heads
    ensures KeysOf(m, xs + [x], h) == KeysOf(m, xs, h) + [KeyRow(m, x, |xs|, h)]
    ensures ValuesOf(m, xs + [x], h) == ValuesOf(m, xs, h) + [ValueRow(m, x, h)]
  {
    hide KeyRow, ValueRow;
  }

  /** Expanded decode over the keys and values of `xs` gives the next causal row. */
  lemma ExpandedIsCausal(m: Layer, xs: seq<Vec>, x: Vec, keys: seq<seq<Vec>>, values: seq<seq<Vec>>)
    requires |keys| == |values| == m.heads
    requires forall h: nat | h < m.heads :: keys[h] == KeysOf(m, xs, h) && values[h] == ValuesOf(m, xs, h)
    ensures Expanded(m, x, |xs|, keys, values) == Causal(m, xs + [x], |xs|)
  {
    hide AttendHead, Query, KeyRow, ValueRow, Project;
    var ys := xs + [x];
    assert ys[..|xs| + 1] == ys;
    forall h: nat | h < m.heads
      ensures ExpandedHead(m, x, |xs|, keys[h], values[h], h) == CausalHead(m, ys, |xs|, h)
    {
      ColumnsGrow(m, xs, x, h);
    }
    assert CausalHeads(m, ys, |xs|) ==
           seq(m.heads, h requires 0 <= h < m.heads => ExpandedHead(m, x, |xs|, keys[h], values[h], h));
  }

  /** The compressed and the expanded decoder agree at every step of every sequence. */
  lemma CompressedEqualsExpanded(m: Layer, xs: seq<Vec>, x: Vec, keys: seq<seq<Vec>>, values: seq<seq<Vec>>)
    requires |keys| == |values| == m.heads
    requires forall h: nat | h < m.heads :: keys[h] == KeysOf(m, xs, h) && values[h] == ValuesOf(m, xs, h)
    ensures Absorbed(m, Latents(m, xs) + [Latent(m, x)], RopeKeys(m, xs) + [RopeKey(m, x, |xs|)], x)
         == Expanded(m, x, |xs|, keys, values)
  {
    StepIsCausal(m, xs, x);
    ExpandedIsCausal(m, xs, x, keys, values);
  }

  lemma StoredIsHeld(m: Layer, state: ExpandedState, keys: seq<seq<Vec>>, values: seq<seq<Vec>>, xs: seq<Vec>, x: Vec)
    requires state.Valid() && state.heads == m.heads == |keys| == |values| && state.len == |xs| + 1
    requires forall h: nat | h < m.heads :: keys[h] == KeysOf(m, xs, h) && values[h] == ValuesOf(m, xs, h)
    requires Stored(state.keys, keys, KeyCells(m, x, |xs|), |xs|, m.heads)
    requires Stored(state.values, values, ValueCells(m, x), |xs|, m.heads)
    ensures state.Holds(m, xs + [x])
  {
    hide KeyRow, ValueRow;
    forall h: nat | h < m.heads
      ensures Column(state.keys, h, state.len) == KeysOf(m, xs + [x], h)
      ensures Column(state.values, h, state.len) == ValuesOf(m, xs + [x], h)
    {
      ColumnsGrow(m, xs, x, h);
    }
  }

  /** Decoding a whole sequence from an empty expanded state: step `t` is row `t` of causal attention. */
  method DecodeAllExpanded(m: Layer, state: ExpandedState, xs: seq<Vec>) returns (outs: seq<Vec>)
    requires state.Valid() && m.Accepted() && state.len == 0 && |xs| <= state.capacity
    requires state.heads == m.heads && state.nope == m.nope && state.ropeDim == m.ropeDim &&
      state.valueDim == m.valueDim
    modifies state`len, state.keys, state.values
    ensures state.Valid() && state.Holds(m, xs)
    ensures |outs| == |xs| && forall t | 0 <= t < |xs| :: outs[t] == Causal(m, xs, t)
  {
    hide Causal, KeyRow, ValueRow, Expanded, Stored;
    outs := [];
    for t := 0 to |xs|
      invariant state.Valid() && state.Holds(m, xs[..t]) && |outs| == t
      invariant forall k | 0 <= k < t :: outs[k] == Causal(m, xs, k)
    {
      ghost var keys, values := Columns(state.keys, t), Columns(state.values, t);
      var ok, out := DecodeExpanded(m, state, xs[t], t);
      StoredIsHeld(m, state, keys, values, xs[..t], xs[t]);
      ExpandedIsCausal(m, xs[..t], xs[t], keys, values);
      assert xs[..t] + [xs[t]] == xs[..t + 1];
      CausalPrefix(m, xs[..t + 1], xs, t);
      outs := outs + [out];
    }
    assert xs[..|xs|] == xs;
  }
}
