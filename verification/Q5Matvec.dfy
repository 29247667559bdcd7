/** The 5-bit matrix from end to end: quantise and pack a matrix, then multiply straight from the packed bytes. */
module Q5Matvec {
  import opened Indexing
  import opened Vectors
  import opened MachineWords
  import opened Q5
  import opened Quantize

  const LIMIT: nat := 15

  // ---------------------------------------------------------------- packing a matrix

  /** Entry `i` of a row, quantised with the scale of its group. */
  function QEntry(w: Vec, cols: nat, i: nat): int {
    Quant(HalfEven, At(w, i), GroupScale(w, cols, i / GROUP, LIMIT), LIMIT)
  }

  function QRow(w: Vec, cols: nat): (q: seq<int>)
    ensures |q| == cols
  {
    seq(cols, i requires 0 <= i < cols => QEntry(w, cols, i))
  }

  function QFlat(w: seq<Vec>, rows: nat, cols: nat): (q: seq<int>) {
    if rows == 0 then [] else QFlat(w, rows - 1, cols) + QRow(Row(w, rows - 1), cols)
  }

  function ScaleRow(w: Vec, cols: nat, groups: nat): (s: seq<real>)
    ensures |s| == groups
  {
    seq(groups, g requires 0 <= g < groups => GroupScale(w, cols, g, LIMIT))
  }

  lemma {:induction false} QFlatAt(w: seq<Vec>, rows: nat, cols: nat, o: nat, i: nat)
    requires o < rows && i < cols
    ensures |QFlat(w, rows, cols)| == rows * cols && Flat(o, i, cols) < rows * cols
    ensures QFlat(w, rows, cols)[Flat(o, i, cols)] == QEntry(Row(w, o), cols, i)
  {
    BlockEnds(o, rows, cols);
    QFlatLength(w, rows, cols);
    QFlatLength(w, rows - 1, cols);
    hide QRow;
    if o < rows - 1 {
      QFlatAt(w, rows - 1, cols, o, i);
    }
  }

  lemma {:induction false} QFlatLength(w: seq<Vec>, rows: nat, cols: nat)
    ensures |QFlat(w, rows, cols)| == rows * cols
  {
    if rows > 0 {
      QFlatLength(w, rows - 1, cols);
      BlockEnds(rows - 1, rows, cols);
    }
  }

  lemma {:induction false} FlatFits(w: seq<Vec>, rows: nat, cols: nat)
    ensures forall k | 0 <= k < |QFlat(w, rows, cols)| :: -16 <= QFlat(w, rows, cols)[k] <= 15
  {
    if rows > 0 {
      FlatFits(w, rows - 1, cols);
      var row := QRow(Row(w, rows - 1), cols);
      forall i | 0 <= i < |row|
        ensures -16 <= row[i] <= 15
      {
      }
    }
  }

  method MaxAbsLoop(w: Vec, at: nat, n: nat) returns (m: real)
    ensures m == MaxAbs(w, at, n)
  {
    m := 0.0;
    for i := 0 to n
      invariant m == MaxAbs(w, at, i)
    {
      var a := Abs(At(w, at + i));
      if a > m {
        m := a;
      }
    }
  }

  method QuantizeRow(w: Vec, cols: nat) returns (scales: seq<real>, q: seq<int>)
    ensures scales == ScaleRow(w, cols, GroupCount(cols)) && q == QRow(w, cols)
  {
    hide ScaleFor, Quant, MaxAbs;
    var groups := GroupCount(cols);
    scales, q := [], [];
    for g := 0 to groups
      invariant scales == ScaleRow(w, cols, g) && q == QRow(w, cols)[..Covered(cols, g)]
    {
      var at, n := g * GROUP, GroupSize(cols, g);
      var m := MaxAbsLoop(w, at, n);
      var s := ScaleFor(m, LIMIT);
      scales := scales + [s];
      for i := 0 to n
        invariant q == QRow(w, cols)[..at + i]
      {
        q := q + [Quant(HalfEven, At(w, at + i), s, LIMIT)];
        assert QRow(w, cols)[at + i] == QEntry(w, cols, at + i);
      }
    }
  }

  /** `quantize_g128`: one scale per row and group, all rows packed as one bit stream. */
  method QuantizeG128(w: seq<Vec>, rows: nat, cols: nat) returns (scales: seq<seq<real>>, packed: seq<byte>)
    ensures |scales| == rows && forall o | 0 <= o < rows :: scales[o] == ScaleRow(Row(w, o), cols, GroupCount(cols))
    ensures packed == Packed(QFlat(w, rows, cols))
    ensures |packed| == (rows * cols * 5 + 7) / 8
  {
    hide QRow, ScaleRow, Packed, GroupCount;
    var q: seq<int>;
    scales, q := [], [];
    for o := 0 to rows
      invariant |scales| == o && q == QFlat(w, o, cols)
      invariant forall r | 0 <= r < o :: scales[r] == ScaleRow(Row(w, r), cols, GroupCount(cols))
    {
      var s, row := QuantizeRow(Row(w, o), cols);
      scales, q := scales + [s], q + row;
    }
    packed := Pack(q);
    QFlatLength(w, rows, cols);
  }

  /** The stored scale and entries of group `g` of a row, columns `128 g` to `128 g + 127`: no magnitude exceeds fifteen
      scales, and unless the group is all zeros some entry reaches it and is stored as 15 or -15. */
  lemma StoredScales(w: Vec, cols: nat, g: nat)
    requires 128 * g < cols && g < GroupCount(cols)
    ensures var s, q := ScaleRow(w, cols, GroupCount(cols))[g], QRow(w, cols);
            var zero := forall i: nat | 128 * g <= i < 128 * g + 128 && i < cols :: At(w, i) == 0.0;
            (forall i: nat | 128 * g <= i < 128 * g + 128 && i < cols :: Abs(At(w, i)) <= Mul(s, 15.0)) &&
            (zero ==> s == 1.0 && forall i: nat | 128 * g <= i < 128 * g + 128 && i < cols :: q[i] == 0) &&
            (!zero ==> exists i: nat :: 128 * g <= i < 128 * g + 128 && i < cols &&
                         Abs(At(w, i)) == Mul(s, 15.0) && q[i] == if At(w, i) > 0.0 then 15 else -15)
  {
    var at, n := g * GROUP, GroupSize(cols, g);
    var s, q := ScaleRow(w, cols, GroupCount(cols))[g], QRow(w, cols);
    ScaleSpreads(HalfEven, w, at, n, LIMIT);
    assert at == 128 * g && at + n == if 128 * g + 128 <= cols then 128 * g + 128 else cols;
    hide ScaleFor, MaxAbs, Quant, Mul, GroupCount, Abs;
    forall i: nat | at <= i < at + n
      ensures q[i] == Quant(HalfEven, At(w, i), s, LIMIT)
    {
      assert i / GROUP == g;
    }
  }

  // ---------------------------------------------------------------- multiplying

  /** `n` values from value `first` on lie inside the bytes. */
  predicate Inside(bs: seq<byte>, first: nat, n: nat) { 5 * (first + n) <= 8 * |bs| }

  function ReadAt(bs: seq<byte>, k: nat): int
    requires Inside(bs, k, 1)
  {
    Read5(bs, 5 * k)
  }

  function DotRead(bs: seq<byte>, first: nat, x: Vec, at: nat, n: nat): real
    requires Inside(bs, first, n)
  {
    if n == 0 then 0.0 else DotRead(bs, first, x, at, n - 1) + Mul(ReadAt(bs, first + n - 1) as real, At(x, at + n - 1))
  }

  lemma ReadCode(bs: seq<byte>, k: nat)
    requires Inside(bs, k, 1)
    ensures Readable(bs, 5 * k) && ShiftRead5(bs, 5 * k) == ReadAt(bs, k)
  {
    ShiftRead5Is(bs, 5 * k);
  }

  /** `dot_q5_ref`. */
  method DotRef(bs: seq<byte>, first: nat, x: Vec, at: nat, n: nat) returns (acc: real)
    requires Inside(bs, first, n)
    ensures acc == DotRead(bs, first, x, at, n)
  {
    hide ReadAt, Mul;
    acc := 0.0;
    for i := 0 to n
      invariant acc == DotRead(bs, first, x, at, i)
    {
      ReadCode(bs, first + i);
      acc := acc + Mul(ShiftRead5(bs, 5 * (first + i)) as real, At(x, at + i));
    }
  }

  lemma {:induction false} DotReadSplit(bs: seq<byte>, first: nat, x: Vec, at: nat, n: nat, k: nat)
    requires Inside(bs, first, n + k)
    ensures DotRead(bs, first, x, at, n + k) == DotRead(bs, first, x, at, n) + DotRead(bs, first + n, x, at + n, k)
  {
    hide ReadAt, Mul;
    if k > 0 {
      DotReadSplit(bs, first, x, at, n, k - 1);
    }
  }

  lemma WordAligned(bs: seq<byte>, first: nat, r: nat)
    requires 5 * first % 8 == 0 && Inside(bs, first, 8) && r < 8
    ensures 5 * first / 8 + 5 <= |bs| && WordField(Word40(bs, 5 * first / 8), r) == ReadAt(bs, first + r)
  {
    hide Read5, Word40, WordField;
    WordReads(bs, 5 * first / 8, r);
    assert 8 * (5 * first / 8) + 5 * r == 5 * (first + r);
  }

  /** Eight fields of one 40-bit word, accumulated. */
  method DotWord(bs: seq<byte>, first: nat, x: Vec, at: nat) returns (acc: real)
    requires 5 * first % 8 == 0 && Inside(bs, first, 8)
    ensures acc == DotRead(bs, first, x, at, 8)
  {
    hide ReadAt, Mul, WordField, Word40, Read5, OrBytes, MaskedSign5, Shr;
    OrBytesIs(bs, 5 * first / 8);
    var w := OrBytes(bs, 5 * first / 8);
    acc := 0.0;
    for r := 0 to 8
      invariant acc == DotRead(bs, first, x, at, r)
    {
      WordAligned(bs, first, r);
      FieldIs(w, r);
      acc := acc + Mul(MaskedSign5(Shr(w, 5 * r)) as real, At(x, at + r));
    }
  }

  lemma StillAligned(first: nat, words: nat)
    requires 5 * first % 8 == 0
    ensures 5 * (first + 8 * words) % 8 == 0
  {
    Eightfold(5 * first, 5 * words);
  }

  lemma Eightfold(x: nat, k: nat)
    ensures (x + 8 * k) % 8 == x % 8
  {
  }

  /** `dot_q5_byte_aligned_avx2`: words of eight, then the generic reader; sums of reals do not depend on the lanes. */
  method DotAligned(bs: seq<byte>, first: nat, x: Vec, at: nat, n: nat) returns (acc: real)
    requires Inside(bs, first, n) && 5 * first % 8 == 0
    ensures acc == DotRead(bs, first, x, at, n)
  {
    hide ReadAt, Mul;
    acc := 0.0;
    var i := 0;
    ghost var words: nat := 0;
    assert DotRead(bs, first, x, at, 0) == 0.0;
    hide DotRead;
    while i + 8 <= n
      invariant i == 8 * words <= n && acc == DotRead(bs, first, x, at, i)
    {
      StillAligned(first, words);
      var word := DotWord(bs, first + i, x, at + i);
      DotReadSplit(bs, first, x, at, i, 8);
      acc := acc + word;
      i, words := i + 8, words + 1;
    }
    if i < n {
      var tail := DotRef(bs, first + i, x, at + i, n - i);
      DotReadSplit(bs, first, x, at, i, n - i);
      acc := acc + tail;
    }
  }

  /** One output: the scaled dot products of the row's groups, read from value `base` on. */
  function RowRead(scales: seq<real>, bs: seq<byte>, base: nat, x: Vec, cols: nat, groups: nat): real
    requires Inside(bs, base, cols) && groups <= |scales| && groups <= GroupCount(cols)
  {
    if groups == 0 then 0.0
    else
      var g := groups - 1;
      RowRead(scales, bs, base, x, cols, g) +
        Mul(scales[g], DotRead(bs, base + g * GROUP, x, g * GROUP, GroupSize(cols, g)))
  }

  lemma RowInside(bs: seq<byte>, rows: nat, cols: nat, o: nat)
    requires Inside(bs, 0, rows * cols) && o < rows
    ensures Inside(bs, o * cols, cols)
  {
    BlockEnds(o, rows, cols);
  }

  /** `kvl_matvec_q5_g128`: byte-aligned groups take the word path, the others the generic one. */
  method MatvecQ5(scales: seq<seq<real>>, bs: seq<byte>, x: Vec, cols: nat, rows: nat) returns (y: array<real>)
    requires Inside(bs, 0, rows * cols) && |scales| == rows &&
      forall o | 0 <= o < rows :: |scales[o]| == GroupCount(cols)
    ensures fresh(y) && y.Length == rows
    ensures forall o | 0 <= o < rows ::
      Inside(bs, o * cols, cols) && y[o] == RowRead(scales[o], bs, o * cols, x, cols, GroupCount(cols))
  {
    hide Mul, GroupCount, RowRead;
    y := new real[rows];
    for o := 0 to rows
      invariant forall r | 0 <= r < o ::
        Inside(bs, r * cols, cols) && y[r] == RowRead(scales[r], bs, r * cols, x, cols, GroupCount(cols))
    {
      RowInside(bs, rows, cols, o);
      var total := MatvecRow(scales[o], bs, o * cols, x, cols);
      y[o] := total;
    }
  }

  method MatvecRow(scales: seq<real>, bs: seq<byte>, base: nat, x: Vec, cols: nat) returns (total: real)
    requires Inside(bs, base, cols) && |scales| == GroupCount(cols)
    ensures total == RowRead(scales, bs, base, x, cols, GroupCount(cols))
  {
    hide Mul, DotRead;
    total := 0.0;
    for g := 0 to GroupCount(cols)
      invariant total == RowRead(scales, bs, base, x, cols, g)
    {
      var start, n := g * GROUP, GroupSize(cols, g);
      var dot;
      if 5 * (base + start) % 8 == 0 {
        dot := DotAligned(bs, base + start, x, start, n);
      } else {
        dot := DotRef(bs, base + start, x, start, n);
      }
      total := total + Mul(scales[g], dot);
    }
  }

  // ---------------------------------------------------------------- end to end

  lemma PackedInside(w: seq<Vec>, rows: nat, cols: nat)
    ensures Inside(Packed(QFlat(w, rows, cols)), 0, rows * cols)
  {
    SmallPowers();
    QFlatLength(w, rows, cols);
    ScalarLength(Fields(QFlat(w, rows, cols)), 0, 0);
  }

  /** The readers deliver the quantised entries. */
  lemma ReadsEntry(w: seq<Vec>, rows: nat, cols: nat, o: nat, i: nat)
    requires o < rows && i < cols
    ensures var bs := Packed(QFlat(w, rows, cols));
            Inside(bs, o * cols + i, 1) && ReadAt(bs, o * cols + i) == QEntry(Row(w, o), cols, i)
  {
    var k := Flat(o, i, cols);
    QFlatAt(w, rows, cols, o, i);
    FlatFits(w, rows, cols);
    PackedInside(w, rows, cols);
    hide QFlat, Packed, QEntry;
    RoundTrip(QFlat(w, rows, cols), k);
  }

  lemma {:induction false} DotReadsGroup(w: seq<Vec>, rows: nat, cols: nat, o: nat, x: Vec, g: nat, n: nat)
    requires o < rows && g < GroupCount(cols) && n <= GroupSize(cols, g)
    ensures var bs := Packed(QFlat(w, rows, cols));
            Inside(bs, o * cols + g * GROUP, n) &&
            DotRead(bs, o * cols + g * GROUP, x, g * GROUP, n) ==
              DotQuant(HalfEven, Row(w, o), GroupScale(Row(w, o), cols, g, LIMIT), LIMIT, x, g * GROUP, n)
  {
    hide Packed, QFlat, ReadAt, Quant, GroupScale, Mul;
    PackedInside(w, rows, cols);
    RowInside(Packed(QFlat(w, rows, cols)), rows, cols, o);
    if n > 0 {
      DotReadsGroup(w, rows, cols, o, x, g, n - 1);
      ReadsEntry(w, rows, cols, o, g * GROUP + n - 1);
    }
  }

  lemma {:induction false} RowReadsValue(w: seq<Vec>, rows: nat, cols: nat, o: nat, x: Vec, groups: nat)
    requires o < rows && groups <= GroupCount(cols)
    ensures var bs := Packed(QFlat(w, rows, cols));
            Inside(bs, o * cols, cols) &&
            RowRead(ScaleRow(Row(w, o), cols, GroupCount(cols)), bs, o * cols, x, cols, groups) ==
              RowValue(HalfEven, Row(w, o), x, cols, LIMIT, groups)
  {
    hide Packed, QFlat, DotRead, DotQuant, GroupScale, Mul;
    PackedInside(w, rows, cols);
    RowInside(Packed(QFlat(w, rows, cols)), rows, cols, o);
    if groups > 0 {
      RowReadsValue(w, rows, cols, o, x, groups - 1);
      DotReadsGroup(w, rows, cols, o, x, groups - 1, GroupSize(cols, groups - 1));
    }
  }

  /** Quantise, pack, read back and multiply: every output is within the group-wise bound of the exact product. */
  lemma EndToEnd(w: seq<Vec>, rows: nat, cols: nat, x: Vec, o: nat)
    requires o < rows
    ensures var bs := Packed(QFlat(w, rows, cols));
            Inside(bs, o * cols, cols) &&
            var y := RowRead(ScaleRow(Row(w, o), cols, GroupCount(cols)), bs, o * cols, x, cols, GroupCount(cols));
            Abs(y - Dot(Row(w, o), x, cols)) <= RowBound(Row(w, o), x, cols, LIMIT, GroupCount(cols))
  {
    hide Packed, QFlat, RowRead, RowValue, RowBound, Dot, ScaleRow, GroupCount;
    RowReadsValue(w, rows, cols, o, x, GroupCount(cols));
    RowError(HalfEven, Row(w, o), x, cols, LIMIT);
  }
}
