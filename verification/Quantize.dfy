/** Symmetric quantisation with one scale per group: clipping never binds, and the error of a dot product is at most
    half a scale per unit of input. */
module Quantize {
  import opened Vectors

  const GROUP: nat := 128

  /** `numpy.rint` rounds ties to even, `roundf` away from zero. */
  datatype Mode = HalfEven | HalfAway

  function Abs(x: real): (a: real)
    ensures a >= 0.0 && a >= x && a >= -x && (a == x || a == -x)
  {
    if x >= 0.0 then x else -x
  }

  function Rint(x: real): int {
    var f := x.Floor;
    var d := x - f as real;
    if d < 0.5 || (d == 0.5 && f % 2 == 0) then f else f + 1
  }

  function RoundAway(x: real): int { if x >= 0.0 then (x + 0.5).Floor else -((0.5 - x).Floor) }

  function Round(mode: Mode, x: real): int { if mode == HalfEven then Rint(x) else RoundAway(x) }

  lemma RoundNear(mode: Mode, x: real)
    ensures Abs(x - Round(mode, x) as real) <= 0.5
  {
  }

  function Clip(q: int, limit: int): int { if q > limit then limit else if q < -limit then -limit else q }

  /** Largest magnitude among `n` entries from `at` on. */
  function MaxAbs(w: Vec, at: nat, n: nat): (m: real)
    ensures m >= 0.0
  {
    if n == 0 then 0.0
    else
      var m, a := MaxAbs(w, at, n - 1), Abs(At(w, at + n - 1));
      if a > m then a else m
  }

  lemma {:induction false} MaxAbsBounds(w: Vec, at: nat, n: nat, i: nat)
    requires at <= i < at + n
    ensures Abs(At(w, i)) <= MaxAbs(w, at, n)
  {
    if i < at + n - 1 {
      MaxAbsBounds(w, at, n - 1, i);
    }
  }

  /** The largest magnitude is that of some entry. */
  lemma {:induction false} MaxAbsAttained(w: Vec, at: nat, n: nat) returns (i: nat)
    requires MaxAbs(w, at, n) > 0.0
    ensures at <= i < at + n && Abs(At(w, i)) == MaxAbs(w, at, n)
  {
    if Abs(At(w, at + n - 1)) > MaxAbs(w, at, n - 1) {
      i := at + n - 1;
    } else {
      i := MaxAbsAttained(w, at, n - 1);
    }
  }

  function Half(s: real): real { s / 2.0 }

  function ScaleFor(maxabs: real, limit: int): (s: real)
    requires maxabs >= 0.0 && limit > 0
    ensures s > 0.0
  {
    if maxabs > 0.0 then maxabs / limit as real else 1.0
  }

  function Quant(mode: Mode, w: real, s: real, limit: int): int
    requires s > 0.0
  {
    Clip(Round(mode, w / s), limit)
  }

  lemma DivBound(w: real, s: real, m: real, limit: int)
    requires limit > 0 && m >= 0.0 && s == ScaleFor(m, limit) && Abs(w) <= m
    ensures Abs(w / s) <= limit as real
  {
    var l := limit as real;
    var x := w / s;
    assert x * s == w;
    if m > 0.0 {
      assert s * l == m;
      assert x > l ==> x * s > l * s;
      assert x < -l ==> x * s < -l * s;
    } else {
      assert w == 0.0;
    }
  }

  lemma Scaled(w: real, s: real, q: real)
    requires s > 0.0 && Abs(w / s - q) <= 0.5
    ensures Abs(w - s * q) <= s / 2.0
  {
    var d := w / s - q;
    assert w - s * q == s * d;
    assert s * d <= s * 0.5 && s * d >= -(s * 0.5);
  }

  /** Clipping never binds, and one value is off by at most half a scale. */
  lemma QuantError(mode: Mode, w: real, m: real, limit: int)
    requires limit > 0 && Abs(w) <= m
    ensures m >= 0.0
    ensures var s := ScaleFor(m, limit);
            Quant(mode, w, s, limit) == Round(mode, w / s) && -limit <= Quant(mode, w, s, limit) <= limit &&
            Abs(w - s * Quant(mode, w, s, limit) as real) <= s / 2.0
  {
    hide ScaleFor, Round;
    var s := ScaleFor(m, limit);
    DivBound(w, s, m, limit);
    RoundNear(mode, w / s);
    Scaled(w, s, Round(mode, w / s) as real);
  }

  /** Ties go to the even neighbour or away from zero; `RoundNear` settles everything else. */
  lemma RoundTies(mode: Mode, x: real)
    requires Abs(x - Round(mode, x) as real) == 0.5
    ensures mode == HalfEven ==> Round(mode, x) % 2 == 0
    ensures mode == HalfAway ==> Abs(Round(mode, x) as real) > Abs(x)
  {
  }

  /** The scale of a group spreads its values over the whole range: `limit` scales are its largest magnitude, and the
      entry that has it is stored as the limit, with its sign; a group of zeros has scale one and is stored as zeros. */
  ghost predicate Spread(mode: Mode, w: Vec, at: nat, n: nat, s: real, limit: int)
    requires s > 0.0
  {
    if forall i: nat | at <= i < at + n :: At(w, i) == 0.0 then
      s == 1.0 && forall i: nat | at <= i < at + n :: Quant(mode, At(w, i), s, limit) == 0
    else
      (forall i: nat | at <= i < at + n :: Abs(At(w, i)) <= Mul(s, limit as real)) &&
      exists i: nat :: at <= i < at + n && Abs(At(w, i)) == Mul(s, limit as real) &&
        Quant(mode, At(w, i), s, limit) == if At(w, i) > 0.0 then limit else -limit
  }

  lemma ScaleSpreads(mode: Mode, w: Vec, at: nat, n: nat, limit: int)
    requires limit > 0
    ensures Spread(mode, w, at, n, ScaleFor(MaxAbs(w, at, n), limit), limit)
  {
    var m := MaxAbs(w, at, n);
    var s := ScaleFor(m, limit);
    forall i: nat | at <= i < at + n
      ensures Abs(At(w, i)) <= m
    {
      MaxAbsBounds(w, at, n, i);
    }
    hide MaxAbs, Round, Mul;
    if m > 0.0 {
      var i := MaxAbsAttained(w, at, n);
      LimitExact(mode, m, limit);
    } else {
      RoundZero(mode);
    }
  }

  lemma RoundZero(mode: Mode)
    ensures Round(mode, 0.0) == 0
  {
  }

  lemma LimitExact(mode: Mode, m: real, limit: int)
    requires limit > 0 && m > 0.0
    ensures var s := ScaleFor(m, limit);
            Mul(s, limit as real) == m && Quant(mode, m, s, limit) == limit && Quant(mode, -m, s, limit) == -limit
  {
    var l := limit as real;
    var s := m / l;
    assert s * l == m;
    QuotientIs(m, s, l);
    QuotientIs(-m, s, -l);
    RoundWhole(mode, limit);
    RoundWhole(mode, -limit);
    assert -l == (-limit) as real;
  }

  lemma QuotientIs(m: real, s: real, l: real)
    requires s > 0.0 && s * l == m
    ensures m / s == l
  {
    var x := m / s;
    assert x * s == m;
    assert (x - l) * s == 0.0;
  }

  lemma RoundWhole(mode: Mode, k: int)
    ensures Round(mode, k as real) == k
  {
  }

  // ---------------------------------------------------------------- one group

  function DotFrom(w: Vec, x: Vec, at: nat, n: nat): real {
    if n == 0 then 0.0 else DotFrom(w, x, at, n - 1) + Mul(At(w, at + n - 1), At(x, at + n - 1))
  }

  function AbsSum(x: Vec, at: nat, n: nat): real {
    if n == 0 then 0.0 else AbsSum(x, at, n - 1) + Abs(At(x, at + n - 1))
  }

  /** The dot product of the quantised group with the input, before scaling. */
  function DotQuant(mode: Mode, w: Vec, s: real, limit: int, x: Vec, at: nat, n: nat): real
    requires s > 0.0
  {
    if n == 0 then 0.0
    else
      DotQuant(mode, w, s, limit, x, at, n - 1) +
      Mul(Quant(mode, At(w, at + n - 1), s, limit) as real, At(x, at + n - 1))
  }

  lemma WeightError(mode: Mode, w: real, m: real, limit: int)
    requires limit > 0 && Abs(w) <= m
    ensures m >= 0.0
    ensures var s := ScaleFor(m, limit); Abs(w - Mul(s, Quant(mode, w, s, limit) as real)) <= Half(s)
  {
    QuantError(mode, w, m, limit);
  }

  lemma TermError(w: real, s: real, q: real, x: real)
    requires s > 0.0 && Abs(w - Mul(s, q)) <= Half(s)
    ensures Abs(Mul(s, Mul(q, x)) - Mul(w, x)) <= Mul(Half(s), Abs(x))
  {
    var e := s * q - w;
    assert s * (q * x) - w * x == e * x;
    var a, b := s / 2.0, Abs(x);
    assert Abs(e * x) == Abs(e) * b;
    assert Abs(e) * b <= a * b;
  }

  lemma Distribute(s: real, a: real, b: real)
    ensures Mul(s, a + b) == Mul(s, a) + Mul(s, b)
  {
  }

  ghost predicate Bounded(w: Vec, at: nat, n: nat, m: real) { forall k: nat | at <= k < at + n :: Abs(At(w, k)) <= m }

  lemma {:induction false} GroupErrorUpTo(mode: Mode, w: Vec, x: Vec, m: real, limit: int, at: nat, n: nat)
    requires limit > 0 && m >= 0.0 && Bounded(w, at, n, m)
    ensures var s := ScaleFor(m, limit);
            Abs(Mul(s, DotQuant(mode, w, s, limit, x, at, n)) - DotFrom(w, x, at, n)) <= Mul(Half(s), AbsSum(x, at, n))
  {
    hide Mul, Half, ScaleFor, Quant, At, Abs;
    var s := ScaleFor(m, limit);
    if n > 0 {
      GroupErrorUpTo(mode, w, x, m, limit, at, n - 1);
      var k := at + n - 1;
      var wi, xi := At(w, k), At(x, k);
      WeightError(mode, wi, m, limit);
      var q := Quant(mode, wi, s, limit) as real;
      TermError(wi, s, q, xi);
      var d := DotQuant(mode, w, s, limit, x, at, n - 1);
      Distribute(s, d, Mul(q, xi));
      Distribute(Half(s), AbsSum(x, at, n - 1), Abs(xi));
    } else {
      MulZero(s);
      MulZero(Half(s));
    }
  }

  lemma MulZero(s: real)
    ensures Mul(s, 0.0) == 0.0
  {
  }

  /** One group, quantised with its own largest magnitude: half a scale times the summed input magnitude. */
  lemma GroupError(mode: Mode, w: Vec, x: Vec, limit: int, at: nat, n: nat)
    requires limit > 0
    ensures var s := ScaleFor(MaxAbs(w, at, n), limit);
            Abs(Mul(s, DotQuant(mode, w, s, limit, x, at, n)) - DotFrom(w, x, at, n)) <= Mul(Half(s), AbsSum(x, at, n))
  {
    hide ScaleFor, DotQuant, Mul, DotFrom, AbsSum;
    var m := MaxAbs(w, at, n);
    forall i: nat | at <= i < at + n
      ensures Abs(At(w, i)) <= m
    {
      MaxAbsBounds(w, at, n, i);
    }
    GroupErrorUpTo(mode, w, x, m, limit, at, n);
  }

  // ---------------------------------------------------------------- a row of groups

  function GroupCount(cols: nat): nat { (cols + GROUP - 1) / GROUP }

  /** The last group may be ragged. */
  function GroupSize(cols: nat, g: nat): nat {
    if (g + 1) * GROUP <= cols then GROUP else if g * GROUP <= cols then cols - g * GROUP else 0
  }

  function GroupScale(w: Vec, cols: nat, g: nat, limit: int): (s: real)
    requires limit > 0
    ensures s > 0.0
  {
    ScaleFor(MaxAbs(w, g * GROUP, GroupSize(cols, g)), limit)
  }

  function RowValue(mode: Mode, w: Vec, x: Vec, cols: nat, limit: int, groups: nat): real
    requires limit > 0
  {
    if groups == 0 then 0.0
    else
      var g := groups - 1;
      var s := GroupScale(w, cols, g, limit);
      RowValue(mode, w, x, cols, limit, g) + Mul(s, DotQuant(mode, w, s, limit, x, g * GROUP, GroupSize(cols, g)))
  }

  function RowBound(w: Vec, x: Vec, cols: nat, limit: int, groups: nat): real
    requires limit > 0
  {
    if groups == 0 then 0.0
    else
      var g := groups - 1;
      RowBound(w, x, cols, limit, g) +
        Mul(Half(GroupScale(w, cols, g, limit)), AbsSum(x, g * GROUP, GroupSize(cols, g)))
  }

  lemma {:induction false} DotFromSplit(w: Vec, x: Vec, at: nat, n: nat)
    ensures DotFrom(w, x, 0, at + n) == DotFrom(w, x, 0, at) + DotFrom(w, x, at, n)
  {
    if n > 0 {
      DotFromSplit(w, x, at, n - 1);
    }
  }

  lemma {:induction false} DotFromIsDot(w: Vec, x: Vec, n: nat)
    ensures DotFrom(w, x, 0, n) == Dot(w, x, n)
  {
    if n > 0 {
      DotFromIsDot(w, x, n - 1);
    }
  }

  /** Columns covered by the first groups. */
  function Covered(cols: nat, groups: nat): nat { if groups * GROUP <= cols then groups * GROUP else cols }

  lemma {:induction false} RowErrorUpTo(mode: Mode, w: Vec, x: Vec, cols: nat, limit: int, groups: nat)
    requires limit > 0
    ensures Abs(RowValue(mode, w, x, cols, limit, groups) - DotFrom(w, x, 0, Covered(cols, groups)))
         <= RowBound(w, x, cols, limit, groups)
  {
    if groups > 0 {
      hide DotQuant, Mul, DotFrom, AbsSum, ScaleFor;
      var g := groups - 1;
      RowErrorUpTo(mode, w, x, cols, limit, g);
      GroupError(mode, w, x, limit, g * GROUP, GroupSize(cols, g));
      if g * GROUP <= cols {
        DotFromSplit(w, x, g * GROUP, GroupSize(cols, g));
      }
    }
  }

  /** The whole row, for every width: the error is at most the sum over groups of half the scale times the summed input
      magnitudes of the group. */
  lemma RowError(mode: Mode, w: Vec, x: Vec, cols: nat, limit: int)
    requires limit > 0
    ensures Abs(RowValue(mode, w, x, cols, limit, GroupCount(cols)) - Dot(w, x, cols))
         <= RowBound(w, x, cols, limit, GroupCount(cols))
  {
    hide RowValue, RowBound, DotFrom;
    RowErrorUpTo(mode, w, x, cols, limit, GroupCount(cols));
    DotFromIsDot(w, x, cols);
  }

  /** The row-wise 8-bit product: one group as wide as the row. */
  lemma Q8RowError(mode: Mode, w: Vec, x: Vec, cols: nat)
    ensures var s := ScaleFor(MaxAbs(w, 0, cols), 127);
            Abs(Mul(s, DotQuant(mode, w, s, 127, x, 0, cols)) - Dot(w, x, cols)) <= Mul(Half(s), AbsSum(x, 0, cols))
  {
    GroupError(mode, w, x, 127, 0, cols);
    DotFromIsDot(w, x, cols);
  }
}
