/** Real vectors, dot products and weighted row sums: the arithmetic shared by every attention form
    and by the quantised matrix products.  A buffer read outside its length is outside the C contract;
    `At` fixes such a read to zero so that the functions below are total. */
module Vectors {

  type Vec = seq<real>

  function At(v: Vec, i: nat): real {
    if i < |v| then v[i] else 0.0
  }

  /** Product and quotient under a name, so that a proof can hide them.  A quotient by zero is outside the
      C contract too: `Mla.DenominatorPositive` shows that no softmax takes one. */
  function Mul(a: real, b: real): real { a * b }

  function Div(a: real, b: real): real {
    if b == 0.0 then 0.0 else a / b
  }

  function Row(w: seq<Vec>, i: nat): Vec {
    if i < |w| then w[i] else []
  }

  function Dot(a: Vec, b: Vec, n: nat): real {
    if n == 0 then 0.0 else Dot(a, b, n - 1) + Mul(At(a, n - 1), At(b, n - 1))
  }

  function Total(v: Vec, n: nat): real {
    if n == 0 then 0.0 else Total(v, n - 1) + At(v, n - 1)
  }

  function MatVec(w: seq<Vec>, x: Vec, cols: nat, rows: nat): Vec {
    seq(rows, o requires 0 <= o => Dot(Row(w, o), x, cols))
  }

  /** Entry `r` of the sum of the first `n` rows, row `j` weighted by `ws[j]`. */
  function Comb(ws: Vec, rows: seq<Vec>, n: nat, r: nat): real {
    if n == 0 then 0.0 else Comb(ws, rows, n - 1, r) + Mul(At(ws, n - 1), At(Row(rows, n - 1), r))
  }

  /** The same weighted sum taken over the dot products of the rows with `v`. */
  function CombDots(ws: Vec, rows: seq<Vec>, v: Vec, n: nat, dim: nat): real {
    if n == 0 then 0.0 else CombDots(ws, rows, v, n - 1, dim) + Mul(At(ws, n - 1), Dot(Row(rows, n - 1), v, dim))
  }

  lemma {:induction false} DotComm(a: Vec, b: Vec, n: nat)
    ensures Dot(a, b, n) == Dot(b, a, n)
  {
    if n > 0 {
      DotComm(a, b, n - 1);
    }
  }

  lemma {:induction false} DotCongruent(a: Vec, a': Vec, b: Vec, b': Vec, n: nat)
    requires forall i | 0 <= i < n :: At(a, i) == At(a', i) && At(b, i) == At(b', i)
    ensures Dot(a, b, n) == Dot(a', b', n)
  {
    if n > 0 {
      DotCongruent(a, a', b, b', n - 1);
    }
  }

  lemma {:induction false} CombCongruent(ws: Vec, ws': Vec, rows: seq<Vec>, rows': seq<Vec>, n: nat, r: nat)
    requires forall j | 0 <= j < n :: At(ws, j) == At(ws', j) && At(Row(rows, j), r) == At(Row(rows', j), r)
    ensures Comb(ws, rows, n, r) == Comb(ws', rows', n, r)
  {
    if n > 0 {
      CombCongruent(ws, ws', rows, rows', n - 1, r);
    }
  }

  /** A dot product over a concatenation is the sum of the two parts. */
  lemma {:induction false} DotConcat(a: Vec, b: Vec, n: nat, c: Vec, d: Vec, k: nat)
    requires |a| == |b| == n
    ensures Dot(a + c, b + d, n + k) == Dot(a, b, n) + Dot(c, d, k)
  {
    if k == 0 {
      DotCongruent(a + c, a, b + d, b, n);
    } else {
      DotConcat(a, b, n, c, d, k - 1);
      assert At(a + c, n + k - 1) == At(c, k - 1);
      assert At(b + d, n + k - 1) == At(d, k - 1);
    }
  }

  lemma Distribute(c: real, d: real, w: real, x: real, y: real)
    ensures Mul(c + Mul(w, x), y) == Mul(c, y) + Mul(w, Mul(x, y))
    ensures Mul(w, d + Mul(x, y)) == Mul(w, d) + Mul(w, Mul(x, y))
  {
    assert (c + w * x) * y == c * y + w * (x * y);
    assert w * (d + x * y) == w * d + w * (x * y);
  }

  lemma {:induction false} CombDotsStep(ws: Vec, rows: seq<Vec>, v: Vec, n: nat, dim: nat)
    requires dim > 0
    ensures CombDots(ws, rows, v, n, dim) ==
            CombDots(ws, rows, v, n, dim - 1) + Mul(Comb(ws, rows, n, dim - 1), At(v, dim - 1))
  {
    if n > 0 {
      CombDotsStep(ws, rows, v, n - 1, dim);
      var w, x, y := At(ws, n - 1), At(Row(rows, n - 1), dim - 1), At(v, dim - 1);
      var c := Comb(ws, rows, n - 1, dim - 1);
      hide Mul;
      Distribute(c, Dot(Row(rows, n - 1), v, dim - 1), w, x, y);
    } else {
      assert Mul(0.0, At(v, dim - 1)) == 0.0;
    }
  }

  lemma {:induction false} CombDotsZero(ws: Vec, rows: seq<Vec>, v: Vec, n: nat)
    ensures CombDots(ws, rows, v, n, 0) == 0.0
  {
    if n > 0 {
      CombDotsZero(ws, rows, v, n - 1);
    }
  }

  /** Exchange of the two sums: mixing rows first and then taking a dot product is the same as taking the
      dot product with every row and mixing the results. */
  lemma {:induction false} DotOfComb(mix: Vec, ws: Vec, rows: seq<Vec>, v: Vec, n: nat, dim: nat)
    requires forall r | 0 <= r < dim :: At(mix, r) == Comb(ws, rows, n, r)
    ensures Dot(mix, v, dim) == CombDots(ws, rows, v, n, dim)
  {
    if dim == 0 {
      CombDotsZero(ws, rows, v, n);
    } else {
      DotOfComb(mix, ws, rows, v, n, dim - 1);
      CombDotsStep(ws, rows, v, n, dim);
    }
  }

  /** When `dots` holds the dot product of every row with `v`, the weighted sum of them is a dot product. */
  lemma {:induction false} CombDotsIsDot(ws: Vec, rows: seq<Vec>, v: Vec, dots: Vec, n: nat, dim: nat)
    requires forall j | 0 <= j < n :: At(dots, j) == Dot(Row(rows, j), v, dim)
    ensures CombDots(ws, rows, v, n, dim) == Dot(ws, dots, n)
  {
    if n > 0 {
      CombDotsIsDot(ws, rows, v, dots, n - 1, dim);
    }
  }

  /** When column `d` of `outs` holds the dot product of every row with `v`, the weighted sum of them is
      that column of the weighted sum of `outs`. */
  lemma {:induction false} CombDotsIsComb(ws: Vec, rows: seq<Vec>, v: Vec, outs: seq<Vec>, d: nat, n: nat, dim: nat)
    requires forall j | 0 <= j < n :: At(Row(outs, j), d) == Dot(Row(rows, j), v, dim)
    ensures CombDots(ws, rows, v, n, dim) == Comb(ws, outs, n, d)
  {
    if n > 0 {
      CombDotsIsComb(ws, rows, v, outs, d, n - 1, dim);
    }
  }

  /** `kvl_matvec_bf16`, accumulating each output entry over the input. */
  method MatVecLoop(x: Vec, w: seq<Vec>, cols: nat, rows: nat) returns (y: array<real>)
    ensures fresh(y) && y[..] == MatVec(w, x, cols, rows)
  {
    hide Mul;
    y := new real[rows];
    for o := 0 to rows
      invariant forall k | 0 <= k < o :: y[k] == Dot(Row(w, k), x, cols)
    {
      var acc := 0.0;
      for i := 0 to cols
        invariant acc == Dot(Row(w, o), x, i)
      {
        acc := acc + Mul(At(Row(w, o), i), At(x, i));
      }
      y[o] := acc;
    }
  }
}
