/** Row-wise 8-bit matrices and the 8-bit latent cache entries: one scale per row. */
module Q8 {
  import opened Vectors
  import opened Quantize

  const LIMIT8: nat := 127

  function Q8Entry(mode: Mode, w: Vec, n: nat, i: nat): int {
    Quant(mode, At(w, i), ScaleFor(MaxAbs(w, 0, n), LIMIT8), LIMIT8)
  }

  lemma ZeroRow(mode: Mode, w: Vec, n: nat, i: nat)
    requires MaxAbs(w, 0, n) <= 0.0 && i < n
    ensures Q8Entry(mode, w, n, i) == 0
  {
    MaxAbsBounds(w, 0, n, i);
    assert 0.0 / 1.0 == 0.0;
  }

  lemma ByInverse(x: real, s: real, inv: real)
    requires s > 0.0 && inv == 1.0 / s
    ensures Mul(x, inv) == x / s
  {
    assert inv * s == 1.0;
    assert (x * inv) * s == x * (inv * s);
  }

  lemma EntryIs(src: Vec, n: nat, i: nat, scale: real, inv: real)
    requires MaxAbs(src, 0, n) > 0.0 && scale == MaxAbs(src, 0, n) / 127.0 && inv == 1.0 / scale
    ensures scale == ScaleFor(MaxAbs(src, 0, n), LIMIT8)
    ensures Q8Entry(HalfAway, src, n, i) == Clip(RoundAway(Mul(At(src, i), inv)), LIMIT8)
  {
    hide RoundAway, MaxAbs;
    var x := At(src, i);
    assert LIMIT8 as real == 127.0;
    ByInverse(x, scale, inv);
    hide Mul;
    assert Q8Entry(HalfAway, src, n, i) == Clip(Round(HalfAway, x / scale), LIMIT8);
  }

  /** `quantize_latent_token`: round half away from zero after multiplying by the inverse scale, then clip. */
  method QuantizeLatent(src: Vec, n: nat) returns (dst: array<int>, scale: real)
    ensures fresh(dst) && dst.Length == n && scale == ScaleFor(MaxAbs(src, 0, n), LIMIT8)
    ensures forall i | 0 <= i < n :: dst[i] == Q8Entry(HalfAway, src, n, i)
  {
    hide RoundAway, Q8Entry, Mul;
    var amax := 0.0;
    for i := 0 to n
      invariant amax == MaxAbs(src, 0, i)
    {
      var a := Abs(At(src, i));
      if a > amax {
        amax := a;
      }
    }
    dst := new int[n](_ => 0);
    if !(amax > 0.0) {
      scale := 1.0;
      forall i: nat | i < n
        ensures Q8Entry(HalfAway, src, n, i) == 0
      {
        ZeroRow(HalfAway, src, n, i);
      }
      return;
    }
    scale := amax / 127.0;
    var inv := 1.0 / scale;
    for i := 0 to n
      invariant forall j | 0 <= j < i :: dst[j] == Q8Entry(HalfAway, src, n, j)
    {
      EntryIs(src, n, i, scale, inv);
      var qf := RoundAway(Mul(At(src, i), inv));
      if qf > 127 {
        qf := 127;
      }
      if qf < -127 {
        qf := -127;
      }
      dst[i] := qf;
    }
  }

  /** A dequantised latent entry is within half a scale of the original, and its rounded value was never clipped. */
  lemma LatentEntry(src: Vec, n: nat, i: nat)
    requires i < n
    ensures var s := ScaleFor(MaxAbs(src, 0, n), LIMIT8);
            Abs(At(src, i) - Mul(s, Q8Entry(HalfAway, src, n, i) as real)) <= Half(s) &&
            Q8Entry(HalfAway, src, n, i) == Round(HalfAway, At(src, i) / s)
  {
    hide Mul, Half, Round, Quant, ScaleFor, MaxAbs;
    MaxAbsBounds(src, 0, n, i);
    WeightError(HalfAway, At(src, i), MaxAbs(src, 0, n), LIMIT8);
    QuantError(HalfAway, At(src, i), MaxAbs(src, 0, n), LIMIT8);
  }

  /** The scale of a row or latent: no magnitude exceeds 127 scales, and unless all entries are zero some entry reaches
      it and is stored as 127 or -127. */
  lemma EntriesSpread(mode: Mode, w: Vec, n: nat)
    ensures var s := ScaleFor(MaxAbs(w, 0, n), LIMIT8);
            var zero := forall i: nat | i < n :: At(w, i) == 0.0;
            (forall i: nat | i < n :: Abs(At(w, i)) <= Mul(s, 127.0)) &&
            (zero ==> s == 1.0 && forall i: nat | i < n :: Q8Entry(mode, w, n, i) == 0) &&
            (!zero ==> exists i: nat :: i < n && Abs(At(w, i)) == Mul(s, 127.0) &&
                         Q8Entry(mode, w, n, i) == if At(w, i) > 0.0 then 127 else -127)
  {
    ScaleSpreads(mode, w, 0, n, LIMIT8);
    hide ScaleFor, MaxAbs, Quant, Mul, Abs;
    var s := ScaleFor(MaxAbs(w, 0, n), LIMIT8);
    assert forall i: nat :: Q8Entry(mode, w, n, i) == Quant(mode, At(w, i), s, LIMIT8);
  }

  function Q8Row(mode: Mode, w: Vec, n: nat): (q: seq<int>)
    ensures |q| == n
  {
    seq(n, i requires 0 <= i < n => Q8Entry(mode, w, n, i))
  }

  function DotInts(q: seq<int>, x: Vec, n: nat): real
    requires n <= |q|
  {
    if n == 0 then 0.0 else DotInts(q, x, n - 1) + Mul(q[n - 1] as real, At(x, n - 1))
  }

  /** `quantize_rows`. */
  method QuantizeRows(w: seq<Vec>, rows: nat, cols: nat) returns (scales: seq<real>, q: seq<seq<int>>)
    ensures |scales| == |q| == rows
    ensures forall o | 0 <= o < rows ::
      scales[o] == ScaleFor(MaxAbs(Row(w, o), 0, cols), LIMIT8) && q[o] == Q8Row(HalfEven, Row(w, o), cols)
  {
    hide MaxAbs, ScaleFor, Quant;
    scales, q := [], [];
    for o := 0 to rows
      invariant |scales| == |q| == o
      invariant forall r | 0 <= r < o ::
        scales[r] == ScaleFor(MaxAbs(Row(w, r), 0, cols), LIMIT8) && q[r] == Q8Row(HalfEven, Row(w, r), cols)
    {
      var s := ScaleFor(MaxAbs(Row(w, o), 0, cols), LIMIT8);
      var row := [];
      for i := 0 to cols
        invariant row == Q8Row(HalfEven, Row(w, o), cols)[..i]
      {
        row := row + [Quant(HalfEven, At(Row(w, o), i), s, LIMIT8)];
      }
      scales, q := scales + [s], q + [row];
    }
  }

  /** `kvl_matvec_q8_rowwise`. */
  method MatvecQ8(scales: seq<real>, q: seq<seq<int>>, x: Vec, cols: nat, rows: nat) returns (y: array<real>)
    requires |scales| == |q| == rows && forall o | 0 <= o < rows :: |q[o]| == cols
    ensures fresh(y) && y.Length == rows && forall o | 0 <= o < rows :: y[o] == Mul(scales[o], DotInts(q[o], x, cols))
  {
    hide Mul;
    y := new real[rows];
    for o := 0 to rows
      invariant forall r | 0 <= r < o :: y[r] == Mul(scales[r], DotInts(q[r], x, cols))
    {
      var dot := 0.0;
      for i := 0 to cols
        invariant dot == DotInts(q[o], x, i)
      {
        dot := dot + Mul(q[o][i] as real, At(x, i));
      }
      y[o] := Mul(scales[o], dot);
    }
  }

  lemma {:induction false} DotIntsIsDotQuant(mode: Mode, w: Vec, cols: nat, x: Vec, n: nat)
    requires n <= cols
    ensures DotInts(Q8Row(mode, w, cols), x, n) ==
      DotQuant(mode, w, ScaleFor(MaxAbs(w, 0, cols), LIMIT8), LIMIT8, x, 0, n)
  {
    hide ScaleFor, MaxAbs, Quant, Mul;
    if n > 0 {
      DotIntsIsDotQuant(mode, w, cols, x, n - 1);
    }
  }

  /** A row of the 8-bit product is within half the scale times the summed magnitudes of the input, for either
      rounding. */
  lemma Q8Error(mode: Mode, w: Vec, cols: nat, x: Vec)
    ensures var s := ScaleFor(MaxAbs(w, 0, cols), LIMIT8);
            Abs(Mul(s, DotInts(Q8Row(mode, w, cols), x, cols)) - Dot(w, x, cols)) <= Mul(Half(s), AbsSum(x, 0, cols))
  {
    hide ScaleFor, Mul, DotInts, DotQuant, Dot;
    DotIntsIsDotQuant(mode, w, cols, x, cols);
    Q8RowError(mode, w, x, cols);
  }

  // ---------------------------------------------------------------- the latent cache

  /** `dequant_latent`, for every entry of a cached token. */
  function Dequantised(q: seq<int>, scale: real): (v: Vec)
    ensures |v| == |q|
  {
    seq(|q|, r requires 0 <= r < |q| => Mul(q[r] as real, scale))
  }

  lemma {:induction false} DotDequantised(q: seq<int>, scale: real, x: Vec, n: nat)
    requires n <= |q|
    ensures Dot(x, Dequantised(q, scale), n) == Mul(scale, DotInts(q, x, n))
  {
    if n > 0 {
      DotDequantised(q, scale, x, n - 1);
      ScaleOut(DotInts(q, x, n - 1), At(x, n - 1), q[n - 1] as real, scale);
      hide Mul;
    }
  }

  lemma ScaleOut(sum: real, x: real, q: real, scale: real)
    ensures Mul(scale, sum) + Mul(x, Mul(q, scale)) == Mul(scale, sum + Mul(q, x))
  {
    assert x * (q * scale) == scale * (q * x);
  }

  /** The latent part of one score: the folded query against the dequantised entries. */
  method LatentDot(qLat: Vec, q: array<int>, scale: real) returns (dot: real)
    ensures dot == Mul(scale, DotInts(q[..], qLat, q.Length))
  {
    hide Mul;
    dot := 0.0;
    for r := 0 to q.Length
      invariant dot == Dot(qLat, Dequantised(q[..], scale), r)
    {
      dot := dot + Mul(At(qLat, r), Mul(q[r] as real, scale));
    }
    DotDequantised(q[..], scale, qLat, q.Length);
  }

  /** Quantise a latent, cache it, and dot it with a query: within half the scale times the summed query magnitudes. */
  method CachedDot(src: Vec, qLat: Vec, n: nat) returns (dot: real)
    ensures Abs(dot - Dot(src, qLat, n)) <= Mul(Half(ScaleFor(MaxAbs(src, 0, n), LIMIT8)), AbsSum(qLat, 0, n))
  {
    hide Mul, Half, ScaleFor, DotInts, Q8Entry, AbsSum;
    var q, scale := QuantizeLatent(src, n);
    assert q[..] == Q8Row(HalfAway, src, n);
    dot := LatentDot(qLat, q, scale);
    Q8Error(HalfAway, src, n, qLat);
  }
}
