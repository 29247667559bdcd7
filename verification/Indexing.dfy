/** Row-major index arithmetic: block `h` of width `dim`, entry `d`. */
module Indexing {

  /** `h * dim + d`: where entry `d` of block `h` sits in a flat buffer of blocks of width `dim`. */
  function Flat(h: nat, d: nat, dim: nat): nat { h * dim + d }

  /** The only multiple of `dim` strictly between `-dim` and `dim` is zero. */
  lemma Between(k: int, dim: nat, e: int)
    requires k * dim == e && -(dim as int) < e < dim
    ensures k == 0
  {
    assert k >= 1 ==> k * dim >= dim;
    assert k <= -1 ==> k * dim <= -(dim as int);
  }

  lemma DivModOf(h: nat, d: nat, dim: nat)
    requires d < dim
    ensures (h * dim + d) / dim == h && (h * dim + d) % dim == d
  {
    var i := h * dim + d;
    var q := i / dim;
    assert q * dim + i % dim == i;
    Between(h - q, dim, i % dim - d);
  }

  lemma {:induction false} BlocksGrow(h: nat, heads: nat, dim: nat)
    requires h <= heads
    ensures h * dim <= heads * dim
    decreases heads
  {
    if h < heads {
      BlocksGrow(h, heads - 1, dim);
      assert heads * dim == (heads - 1) * dim + dim;
    }
  }

  /** Block `h` ends within the buffer. */
  lemma BlockEnds(h: nat, heads: nat, dim: nat)
    requires h < heads
    ensures h * dim + dim == (h + 1) * dim <= heads * dim
  {
    BlocksGrow(h + 1, heads, dim);
  }

  lemma FlatInRange(h: nat, d: nat, heads: nat, dim: nat)
    requires h < heads && d < dim
    ensures Flat(h, d, dim) < heads * dim
    ensures Flat(h, d, dim) / dim == h && Flat(h, d, dim) % dim == d
  {
    BlockEnds(h, heads, dim);
    DivModOf(h, d, dim);
  }

  /** Every index of a flat buffer belongs to one block. */
  lemma BlockOf(i: nat, heads: nat, dim: nat)
    requires i < heads * dim
    ensures dim > 0 && 0 <= i / dim < heads && 0 <= i % dim < dim && Flat(i / dim, i % dim, dim) == i
  {
    assert dim > 0;
    var q := i / dim;
    assert q * dim + i % dim == i;
    if q >= heads {
      BlocksGrow(heads, q, dim);
    }
  }

  /** The quotient names the one block an index lies in. */
  lemma QuotientIff(e: nat, g: int, dim: nat)
    requires dim > 0
    ensures g * dim <= e < g * dim + dim <==> e / dim == g
  {
    var q := e / dim;
    assert q * dim + e % dim == e;
    if g * dim <= e < g * dim + dim {
      assert (g - q) * dim == g * dim - q * dim;
      Between(g - q, dim, g * dim - q * dim);
    }
  }

  lemma FlatDistinct(h: nat, d: nat, h': nat, d': nat, dim: nat)
    requires d < dim && d' < dim && (h != h' || d != d')
    ensures Flat(h, d, dim) != Flat(h', d', dim)
  {
    DivModOf(h, d, dim);
    DivModOf(h', d', dim);
  }
}
