/** Or, and, and shifts of machine words, by their binary digits, and the arithmetic they come to when the operands do
    not overlap. */
module MachineWords {
  import opened Indexing

  function Pow2(k: nat): (p: nat)
    ensures p > 0
  {
    if k == 0 then 1 else 2 * Pow2(k - 1)
  }

  /** `a | b`. */
  function Or(a: nat, b: nat): nat
    decreases a + b
  {
    if a == 0 && b == 0 then 0 else 2 * Or(a / 2, b / 2) + if a % 2 == 1 || b % 2 == 1 then 1 else 0
  }

  /** `a & b`. */
  function And(a: nat, b: nat): nat {
    if a == 0 then 0 else 2 * And(a / 2, b / 2) + if a % 2 == 1 && b % 2 == 1 then 1 else 0
  }

  /** `v << k`. */
  function Shl(v: nat, k: nat): nat { v * Pow2(k) }

  /** `v >> k`. */
  function Shr(v: nat, k: nat): nat { if k == 0 then v else Shr(v / 2, k - 1) }

  lemma {:induction false} OrZero(b: nat)
    ensures Or(0, b) == b
  {
    if b > 0 {
      OrZero(b / 2);
    }
  }

  lemma Doubled(high: nat, m: nat)
    ensures high * (2 * m) == 2 * (high * m)
  {
  }

  /** Or-ing a word above `k` low bits is adding it. */
  lemma {:induction false} OrApart(low: nat, high: nat, k: nat)
    requires low < Pow2(k)
    ensures Or(low, Shl(high, k)) == low + high * Pow2(k)
    decreases k
  {
    if k == 0 {
      OrZero(high);
    } else {
      OrApart(low / 2, high, k - 1);
      Doubled(high, Pow2(k - 1));
    }
  }

  /** Halving first splits the quotient and the remainder by an even number. */
  lemma HalfFirst(v: nat, m: nat)
    requires m > 0
    ensures v / (2 * m) == v / 2 / m && v % (2 * m) == 2 * (v / 2 % m) + v % 2
  {
    var h := v / 2;
    var q, r := h / m, h % m;
    assert h == q * m + r;
    Doubled(q, m);
    assert v == q * (2 * m) + (2 * r + v % 2);
    DivModOf(q, 2 * r + v % 2, 2 * m);
  }

  /** Shifting down is the quotient. */
  lemma {:induction false} ShrIs(v: nat, k: nat)
    ensures Shr(v, k) == v / Pow2(k)
    decreases k
  {
    if k > 0 {
      ShrIs(v / 2, k - 1);
      HalfFirst(v, Pow2(k - 1));
    }
  }

  /** Masking with `k` ones is the remainder. */
  lemma {:induction false} MaskIs(v: nat, k: nat)
    ensures And(v, Pow2(k) - 1) == v % Pow2(k)
    decreases k
  {
    if k == 0 {
      AndZero(v);
    } else {
      var m := Pow2(k - 1);
      MaskIs(v / 2, k - 1);
      HalfFirst(v, m);
      assert (2 * m - 1) / 2 == m - 1 && (2 * m - 1) % 2 == 1;
    }
  }

  lemma {:induction false} AndZero(v: nat)
    ensures And(v, 0) == 0
  {
    if v > 0 {
      AndZero(v / 2);
    }
  }

  /** Masking with one bit tests it. */
  lemma {:induction false} BitIs(v: nat, k: nat)
    ensures And(v, Pow2(k)) == if v / Pow2(k) % 2 == 1 then Pow2(k) else 0
    decreases k
  {
    if k == 0 {
      AndZero(v / 2);
    } else {
      BitIs(v / 2, k - 1);
      HalfFirst(v, Pow2(k - 1));
    }
  }

  lemma {:induction false} PowSum(a: nat, b: nat)
    ensures Pow2(a + b) == Pow2(a) * Pow2(b)
    decreases b
  {
    if b > 0 {
      PowSum(a, b - 1);
      Doubled(Pow2(a), Pow2(b - 1));
    }
  }
}
