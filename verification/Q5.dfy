/** Signed 5-bit values packed without gaps, the lowest bit first: the packer's two paths and the readers. */
module Q5 {
  import opened Indexing
  import opened MachineWords

  type byte = n: nat | n < 256

  /** A 5-bit field: the value modulo 32. */
  type field = n: nat | n < 32

  /** What `low | high << k` comes to when `low` fits below bit `k`. */
  function OrAt(low: nat, high: nat, k: nat): nat
    requires low < Pow2(k)
  {
    low + high * Pow2(k)
  }

  function Field(q: int): field { q % 32 }

  /** `q5_sign5`. */
  function Sign5(v: nat): int {
    var f := v % 32;
    if f >= 16 then f - 32 else f
  }

  /** Five bits hold exactly the values from -16 to 15. */
  lemma SignField(q: int)
    ensures Sign5(Field(q)) == q <==> -16 <= q <= 15
  {
  }

  lemma SmallPowers()
    ensures Pow2(0) == 1 && Pow2(1) == 2 && Pow2(2) == 4 && Pow2(3) == 8 && Pow2(4) == 16 && Pow2(5) == 32
    ensures Pow2(6) == 64 && Pow2(7) == 128 && Pow2(8) == 256
  {
    assert Pow2(4) == 16 by {
      assert Pow2(2) == 4;
    }
    assert Pow2(6) == 64 by {
      assert Pow2(5) == 32;
    }
  }

  // ---------------------------------------------------------------- the operations of the code

  /** `q5_sign5`, with its masks. */
  function MaskedSign5(v: nat): int {
    var f := And(v, 31);
    if And(f, 16) != 0 then f - 32 else f
  }

  lemma MaskedSign5Is(v: nat)
    ensures MaskedSign5(v) == Sign5(v)
  {
    SmallPowers();
    MaskIs(v, 5);
    BitIs(v % 32, 4);
    hide And, Pow2;
    TopBit(v % 32);
  }

  lemma TopBit(f: field)
    ensures f / 16 % 2 == 1 <==> f >= 16
  {
  }

  /** Or-ing a field above the pending bits. */
  lemma OrAtIs(low: nat, high: nat, k: nat)
    requires low < Pow2(k)
    ensures Or(low, Shl(high, k)) == OrAt(low, high, k)
  {
    OrApart(low, high, k);
  }

  /** The byte the accumulator gives off, and the rest. */
  lemma ByteOff(acc: nat)
    ensures And(acc, 255) == acc % 256 && Shr(acc, 8) == acc / 256
  {
    SmallPowers();
    MaskIs(acc, 8);
    ShrIs(acc, 8);
    hide And, Shr, Pow2;
  }

  lemma WordPowers()
    ensures Pow2(5) == 0x20 && Pow2(10) == 0x400 && Pow2(15) == 0x8000 && Pow2(20) == 0x10_0000
    ensures Pow2(25) == 0x200_0000 && Pow2(30) == 0x4000_0000 && Pow2(35) == 0x8_0000_0000
    ensures Pow2(8) == 0x100 && Pow2(16) == 0x1_0000 && Pow2(24) == 0x100_0000 && Pow2(32) == 0x1_0000_0000
  {
    SmallPowers();
    PowSum(5, 5);
    PowSum(10, 5);
    PowSum(10, 10);
    PowSum(20, 5);
    PowSum(20, 10);
    PowSum(20, 15);
    PowSum(8, 8);
    PowSum(16, 8);
    PowSum(16, 16);
    hide Pow2;
  }

  // ---------------------------------------------------------------- the bit accumulator

  /** What the accumulator loop appends from `acc` with `bits` pending bits on. */
  function Scalar(us: seq<field>, acc: nat, bits: nat): seq<byte>
    requires bits < 8 && acc < Pow2(bits)
    decreases |us|
  {
    SmallPowers();
    if |us| == 0 then
      if bits > 0 then [acc % 256] else []
    else
      var next := OrAt(acc, us[0], bits);
      if bits + 5 >= 8 then [next % 256] + Scalar(us[1..], next / 256, bits + 5 - 8)
      else Scalar(us[1..], next, bits + 5)
  }

  /** The number of bytes is the number of bits over eight, rounded up. */
  lemma {:induction false} ScalarLength(us: seq<field>, acc: nat, bits: nat)
    requires bits < 8 && acc < Pow2(bits)
    ensures |Scalar(us, acc, bits)| == (bits + 5 * |us| + 7) / 8
    decreases |us|
  {
    SmallPowers();
    if |us| > 0 {
      var next := OrAt(acc, us[0], bits);
      if bits + 5 >= 8 {
        ScalarLength(us[1..], next / 256, bits + 5 - 8);
      } else {
        ScalarLength(us[1..], next, bits + 5);
      }
    }
  }

  // ---------------------------------------------------------------- numbers

  /** The bytes as one number, the lowest byte first. */
  function Val(bs: seq<byte>): nat { if |bs| == 0 then 0 else bs[0] + 256 * Val(bs[1..]) }

  /** The fields as one number, the lowest field first. */
  function Num(us: seq<field>): nat { if |us| == 0 then 0 else us[0] + 32 * Num(us[1..]) }

  lemma {:induction false} SameVal(a: seq<byte>, b: seq<byte>)
    requires |a| == |b| && Val(a) == Val(b)
    ensures a == b
    decreases |a|
  {
    if |a| > 0 {
      assert a[0] == Val(a) % 256 == b[0];
      SameVal(a[1..], b[1..]);
      assert a == [a[0]] + a[1..] && b == [b[0]] + b[1..];
    }
  }

  lemma Spread(u: nat, m: nat, rest: nat)
    ensures m * (u + 32 * rest) == u * m + (32 * m) * rest
  {
  }

  /** A field that fills a byte: `m` is the place of the field, `p` the place left behind the byte. */
  lemma FillsByte(acc: nat, u: field, m: nat, p: nat, rest: nat)
    requires acc < m && 256 * p == 32 * m
    ensures var x := acc + u * m; x / 256 < p && x % 256 + 256 * (x / 256 + p * rest) == acc + m * (u + 32 * rest)
  {
    FieldFits(acc, u, m);
    TakeByte(acc + u * m, p, p * rest);
    Spread(u, m, rest);
    assert 256 * (p * rest) == (256 * p) * rest;
  }

  lemma FieldFits(acc: nat, u: field, m: nat)
    requires acc < m
    ensures acc + u * m < 32 * m
  {
    assert (31 - u) * m >= 0;
  }

  lemma TakeByte(x: nat, p: nat, more: nat)
    ensures x < 256 * p ==> x / 256 < p
    ensures x % 256 + 256 * (x / 256 + more) == x + 256 * more
  {
  }

  lemma NextValue(acc: nat, u: field, bits: nat, rest: nat)
    requires bits < 8 && acc < Pow2(bits)
    ensures var next := OrAt(acc, u, bits);
            (bits + 5 >= 8 ==> next / 256 < Pow2(bits - 3)) &&
            (bits + 5 >= 8 ==>
               next % 256 + 256 * (next / 256 + Pow2(bits - 3) * rest) == acc + Pow2(bits) * (u + 32 * rest)) &&
            (bits + 5 < 8 ==>
              next < Pow2(bits + 5) && next + Pow2(bits + 5) * rest == acc + Pow2(bits) * (u + 32 * rest))
  {
    var m := Pow2(bits);
    assert Pow2(3) == 8 && Pow2(5) == 32 by {
      SmallPowers();
    }
    if bits + 5 >= 8 {
      PowSum(bits - 3, 3);
      hide Pow2;
      FillsByte(acc, u, m, Pow2(bits - 3), rest);
    } else {
      PowSum(bits, 5);
      hide Pow2;
      Spread(u, m, rest);
      FieldFits(acc, u, m);
    }
  }

  /** The bytes and the fields are the same number: pending bits below, fields above. */
  lemma {:induction false} ScalarValue(us: seq<field>, acc: nat, bits: nat)
    requires bits < 8 && acc < Pow2(bits)
    ensures Val(Scalar(us, acc, bits)) == acc + Pow2(bits) * Num(us)
    decreases |us|
  {
    SmallPowers();
    if |us| > 0 {
      var next := OrAt(acc, us[0], bits);
      NextValue(acc, us[0], bits, Num(us[1..]));
      assert Num(us) == us[0] + 32 * Num(us[1..]);
      hide Pow2, OrAt, Num, Val;
      if bits + 5 >= 8 {
        ScalarValue(us[1..], next / 256, bits + 5 - 8);
        ValCons(next % 256, Scalar(us[1..], next / 256, bits + 5 - 8));
      } else {
        ScalarValue(us[1..], next, bits + 5);
      }
    }
  }

  lemma ValCons(b: byte, rest: seq<byte>)
    ensures Val([b] + rest) == b + 256 * Val(rest)
  {
    assert ([b] + rest)[1..] == rest;
  }

  // ---------------------------------------------------------------- the vectorised path

  const W: nat := 0x100_0000_0000

  /** Eight fields in one 40-bit word, or-ed together. */
  function OrWord(u: seq<field>): nat
    requires |u| == 8
  {
    var low := Or(Or(Or(u[0], Shl(u[1], 5)), Shl(u[2], 10)), Shl(u[3], 15));
    Or(Or(Or(Or(low, Shl(u[4], 20)), Shl(u[5], 25)), Shl(u[6], 30)), Shl(u[7], 35))
  }

  /** The word as a sum of fields side by side. */
  function Word(u: seq<field>): nat
    requires |u| == 8
  {
    (u[0] as nat) + 0x20 * (u[1] as nat) + 0x400 * (u[2] as nat) + 0x8000 * (u[3] as nat) + 0x10_0000 * (u[4] as nat) +
    0x200_0000 * (u[5] as nat) + 0x4000_0000 * (u[6] as nat) + 0x8_0000_0000 * (u[7] as nat)
  }

  function WordBytes(w: nat): seq<byte> {
    [w % 0x100, w / 0x100 % 0x100, w / 0x1_0000 % 0x100, w / 0x100_0000 % 0x100, w / 0x1_0000_0000 % 0x100]
  }

  lemma OrWordIs(u: seq<field>)
    requires |u| == 8
    ensures OrWord(u) == Word(u)
  {
    WordPowers();
    hide Or, Shl, Pow2;
    var w1: nat := (u[0] as nat) + 0x20 * (u[1] as nat);
    var w2: nat := w1 + 0x400 * (u[2] as nat);
    var w3: nat := w2 + 0x8000 * (u[3] as nat);
    var w4: nat := w3 + 0x10_0000 * (u[4] as nat);
    var w5: nat := w4 + 0x200_0000 * (u[5] as nat);
    var w6: nat := w5 + 0x4000_0000 * (u[6] as nat);
    OrApart(u[0], u[1], 5);
    OrApart(w1, u[2], 10);
    OrApart(w2, u[3], 15);
    OrApart(w3, u[4], 20);
    OrApart(w4, u[5], 25);
    OrApart(w5, u[6], 30);
    OrApart(w6, u[7], 35);
  }

  /** The five bytes of a word, shifted down and masked. */
  function MaskedBytes(w: nat): seq<nat> {
    [And(w, 255), And(Shr(w, 8), 255), And(Shr(w, 16), 255), And(Shr(w, 24), 255), And(Shr(w, 32), 255)]
  }

  lemma MaskedBytesIs(w: nat)
    ensures MaskedBytes(w) == WordBytes(w)
  {
    WordPowers();
    hide And, Shr, Pow2;
    ShrIs(w, 8);
    ShrIs(w, 16);
    ShrIs(w, 24);
    ShrIs(w, 32);
    ByteOff(w);
    ByteOff(Shr(w, 8));
    ByteOff(Shr(w, 16));
    ByteOff(Shr(w, 24));
    ByteOff(Shr(w, 32));
  }

  lemma WordIsNum(us: seq<field>)
    requires |us| >= 8
    ensures Num(us) == Word(us[..8]) + W * Num(us[8..]) && Word(us[..8]) < W
  {
    assert us[1..][1..] == us[2..] && us[2..][1..] == us[3..] && us[3..][1..] == us[4..];
    assert us[4..][1..] == us[5..] && us[5..][1..] == us[6..] && us[6..][1..] == us[7..] && us[7..][1..] == us[8..];
    assert Num(us) == us[0] + 32 * Num(us[1..]);
    assert Num(us[1..]) == us[1] + 32 * Num(us[2..]);
    assert Num(us[2..]) == us[2] + 32 * Num(us[3..]);
    assert Num(us[3..]) == us[3] + 32 * Num(us[4..]);
    assert Num(us[4..]) == us[4] + 32 * Num(us[5..]);
    assert Num(us[5..]) == us[5] + 32 * Num(us[6..]);
    assert Num(us[6..]) == us[6] + 32 * Num(us[7..]);
    assert Num(us[7..]) == us[7] + 32 * Num(us[8..]);
  }

  lemma WordBytesVal(w: nat, rest: seq<byte>)
    requires w < W
    ensures Val(WordBytes(w) + rest) == w + W * Val(rest)
  {
    var b, all := WordBytes(w), WordBytes(w) + rest;
    assert all[1..][1..] == all[2..] && all[2..][1..] == all[3..] && all[3..][1..] == all[4..] &&
      all[4..][1..] == all[5..];
    assert all[5..] == rest;
    assert Val(all[4..]) == b[4] + 256 * Val(rest);
    assert Val(all[3..]) == b[3] + 256 * Val(all[4..]);
    assert Val(all[2..]) == b[2] + 256 * Val(all[3..]);
    assert Val(all[1..]) == b[1] + 256 * Val(all[2..]);
    assert Val(all) == b[0] + 256 * Val(all[1..]);
    WordDigits(w);
  }

  lemma WordDigits(w: nat)
    requires w < W
    ensures w == w % 0x100 + 0x100 * (w / 0x100 % 0x100) + 0x1_0000 * (w / 0x1_0000 % 0x100) +
                 0x100_0000 * (w / 0x100_0000 % 0x100) + 0x1_0000_0000 * (w / 0x1_0000_0000 % 0x100)
  {
    assert w / 0x1_0000 == w / 0x100 / 0x100 && w / 0x100_0000 == w / 0x1_0000 / 0x100 &&
      w / 0x1_0000_0000 == w / 0x100_0000 / 0x100;
  }

  /** Packing eight fields as one word gives the accumulator's next five bytes. */
  lemma WordStep(us: seq<field>)
    requires |us| >= 8
    ensures Scalar(us, 0, 0) == WordBytes(Word(us[..8])) + Scalar(us[8..], 0, 0)
  {
    SmallPowers();
    var rest := Scalar(us[8..], 0, 0);
    WordIsNum(us);
    WordBytesVal(Word(us[..8]), rest);
    ScalarValue(us, 0, 0);
    ScalarValue(us[8..], 0, 0);
    ScalarLength(us, 0, 0);
    ScalarLength(us[8..], 0, 0);
    hide Scalar, Word, WordBytes, Val, Num;
    WordBytesLength(Word(us[..8]));
    SameVal(Scalar(us, 0, 0), WordBytes(Word(us[..8])) + rest);
  }

  lemma WordBytesLength(w: nat)
    ensures |WordBytes(w)| == 5
  {
  }

  function Fields(qs: seq<int>): (us: seq<field>)
    ensures |us| == |qs| && forall i | 0 <= i < |us| :: us[i] == Field(qs[i])
  {
    seq(|qs|, i requires 0 <= i < |qs| => Field(qs[i]))
  }

  /** `pack_signed_q5`: whole blocks of eight as words, then the accumulator over the tail. */
  method Pack(qs: seq<int>) returns (packed: seq<byte>)
    ensures packed == Packed(qs) && |packed| == (|qs| * 5 + 7) / 8
  {
    hide Scalar, Word, WordBytes, OrWord, MaskedBytes;
    SmallPowers();
    ghost var us := Fields(qs);
    var n8 := |qs| / 8 * 8;
    packed := [];
    var i := 0;
    assert us[0..] == us;
    while i < n8
      invariant 0 <= i <= n8 && i % 8 == 0
      invariant packed + Scalar(us[i..], 0, 0) == Scalar(us, 0, 0)
    {
      var word := OrWord(Fields(qs[i..i + 8]));
      OrWordIs(Fields(qs[i..i + 8]));
      WordStep(us[i..]);
      assert us[i..][..8] == Fields(qs[i..i + 8]) && us[i..][8..] == us[i + 8..];
      MaskedBytesIs(word);
      packed := packed + MaskedBytes(word);
      i := i + 8;
    }
    if n8 != |qs| {
      var tail := PackTail(qs[n8..]);
      assert us[n8..] == Fields(qs[n8..]);
      packed := packed + tail;
    } else {
      assert us[n8..] == [];
      NothingLeft();
    }
    ScalarLength(us, 0, 0);
  }

  /** The packed bytes of a list of values. */
  function Packed(qs: seq<int>): seq<byte> {
    SmallPowers();
    Scalar(Fields(qs), 0, 0)
  }

  lemma NothingLeft()
    ensures Packed([]) == []
  {
  }

  /** The accumulator loop. */
  method PackTail(qs: seq<int>) returns (tail: seq<byte>)
    ensures tail == Packed(qs)
  {
    hide Or, And, Shl, Shr;
    ghost var us := Fields(qs);
    SmallPowers();
    var acc: nat, bits: nat := 0, 0;
    tail := [];
    assert us[0..] == us;
    for i := 0 to |qs|
      invariant bits < 8 && acc < Pow2(bits)
      invariant tail + Scalar(us[i..], acc, bits) == Scalar(us, 0, 0)
    {
      assert us[i..][0] == us[i] && us[i..][1..] == us[i + 1..];
      NextValue(acc, us[i], bits, 0);
      OrAtIs(acc, us[i], bits);
      acc := Or(acc, Shl(Field(qs[i]), bits));
      bits := bits + 5;
      ByteOff(acc);
      if bits >= 8 {
        tail := tail + [And(acc, 255)];
        acc := Shr(acc, 8);
        bits := bits - 8;
      }
    }
    if bits > 0 {
      ByteOff(acc);
      tail := tail + [And(acc, 255)];
    }
  }

  // ---------------------------------------------------------------- reading

  /** The bytes `q5_read5` touches are inside the buffer. */
  predicate Readable(bs: seq<byte>, bitpos: nat) {
    bitpos / 8 < |bs| && (bitpos % 8 > 3 ==> bitpos / 8 + 1 < |bs|)
  }

  /** `q5_read5`: the first byte shifted down, the second one or-ed in above when the field crosses it. */
  function ShiftRead5(bs: seq<byte>, bitpos: nat): int
    requires Readable(bs, bitpos)
  {
    var at, shift := bitpos / 8, bitpos % 8;
    MaskedSign5(if shift > 3 then Or(Shr(bs[at], shift), Shl(bs[at + 1], 8 - shift)) else Shr(bs[at], shift))
  }

  lemma ShiftRead5Is(bs: seq<byte>, bitpos: nat)
    requires Readable(bs, bitpos)
    ensures ShiftRead5(bs, bitpos) == Read5(bs, bitpos)
  {
    var at, shift := bitpos / 8, bitpos % 8;
    hide Or, Pow2, MaskedSign5, Sign5, Shr, Shl;
    if shift > 3 {
      LowPart(bs[at], shift);
      OrApart(Shr(bs[at], shift), bs[at + 1], 8 - shift);
      MaskedSign5Is(Or(Shr(bs[at], shift), Shl(bs[at + 1], 8 - shift)));
    } else {
      MaskedSign5Is(Shr(bs[at], shift));
    }
  }

  /** A byte shifted down leaves room for what is or-ed in above. */
  lemma LowPart(b: byte, shift: nat)
    requires shift < 8
    ensures Shr(b, shift) < Pow2(8 - shift)
  {
    SmallPowers();
    ShrIs(b, shift);
    hide Pow2, Shr;
    if shift == 0 {
    } else if shift == 1 {
    } else if shift == 2 {
    } else if shift == 3 {
    } else if shift == 4 {
    } else if shift == 5 {
    } else if shift == 6 {
    } else {
      assert shift == 7;
    }
  }

  /** What the reader computes, with the or as a sum. */
  function Read5(bs: seq<byte>, bitpos: nat): int
    requires Readable(bs, bitpos)
  {
    var at, shift := bitpos / 8, bitpos % 8;
    var low := Shr(bs[at], shift);
    Sign5(if shift > 3 then low + bs[at + 1] * Pow2(8 - shift) else low)
  }

  lemma ReadLater(b: byte, bs: seq<byte>, bitpos: nat)
    requires bitpos >= 8 && Readable(bs, bitpos - 8)
    ensures Readable([b] + bs, bitpos) && Read5([b] + bs, bitpos) == Read5(bs, bitpos - 8)
  {
    hide Pow2, Sign5;
    assert bitpos / 8 == (bitpos - 8) / 8 + 1 && bitpos % 8 == (bitpos - 8) % 8;
  }

  /** The pending bits come out first. */
  lemma {:induction false} PendingFirst(us: seq<field>, acc: nat, bits: nat)
    requires bits < 8 && acc < Pow2(bits) && (bits > 0 || |us| > 0)
    ensures |Scalar(us, acc, bits)| > 0 && Scalar(us, acc, bits)[0] % Pow2(bits) == acc
    decreases |us|
  {
    SmallPowers();
    if |us| > 0 {
      var next := OrAt(acc, us[0], bits);
      LowBits(acc, us[0], bits);
      NextValue(acc, us[0], bits, 0);
      if bits + 5 < 8 {
        PendingFirst(us[1..], next, bits + 5);
        LowOf(Scalar(us[1..], next, bits + 5)[0], next, acc, us[0], bits);
      }
    } else {
      hide Pow2;
    }
  }

  lemma ModOf(h: int, d: nat, m: nat)
    requires d < m
    ensures (h * m + d) % m == d
  {
    var i := h * m + d;
    var q := i / m;
    assert q * m + i % m == i;
    Between(h - q, m, i % m - d);
  }

  lemma TakeOff(u: int, k: int, n: int, m: int)
    ensures (u - k * n) * m == u * m - (k * m) * n
  {
  }

  lemma PutOn(j: int, r: int, n: int, k: int)
    ensures (j * r + n) * k == j * (r * k) + k * n
  {
  }

  lemma LowWith(acc: nat, u: field, m: nat, k: nat, x: nat)
    requires k * m == 256 && acc < m && x == acc + u * m
    ensures x % 256 % m == acc
  {
    var n := x / 256;
    assert x % 256 == x - 256 * n;
    TakeOff(u, k, n, m);
    ModOf(u - k * n, acc, m);
  }

  lemma LowBits(acc: nat, u: field, bits: nat)
    requires bits < 8 && acc < Pow2(bits)
    ensures OrAt(acc, u, bits) % 256 % Pow2(bits) == acc
  {
    SmallPowers();
    hide Pow2;
    LowWith(acc, u, Pow2(bits), Pow2(8 - bits), OrAt(acc, u, bits));
  }

  lemma FoldIn(u: int, j: int, m: int)
    ensures (u + 32 * j) * m == u * m + j * (32 * m)
  {
  }

  /** A byte whose low bits are `acc` and then `u`. */
  lemma ByteWith(b: nat, acc: nat, u: field, m: nat)
    requires m > 0 && acc < m && b % (32 * m) == acc + u * m
    ensures b % m == acc && b / m % 32 == u
  {
    var j := b / (32 * m);
    assert b == j * (32 * m) + b % (32 * m);
    FoldIn(u, j, m);
    ModOf(u + 32 * j, acc, m);
    DivOf(u + 32 * j, acc, m);
  }

  lemma LowOf(b: nat, next: nat, acc: nat, u: field, bits: nat)
    requires bits < 3 && acc < Pow2(bits) && next == OrAt(acc, u, bits) && b % Pow2(bits + 5) == next
    ensures b % Pow2(bits) == acc
  {
    SmallPowers();
    hide Pow2;
    ByteWith(b, acc, u, Pow2(bits));
  }

  lemma DivOf(h: nat, d: nat, m: nat)
    requires d < m
    ensures (h * m + d) / m == h
  {
    DivModOf(h, d, m);
  }

  /** A field inside one byte. */
  lemma WithinByte(b: nat, acc: nat, u: field, bits: nat)
    requires bits <= 3 && acc < Pow2(bits) && b % Pow2(bits + 5) == OrAt(acc, u, bits)
    ensures b / Pow2(bits) % 32 == u
  {
    SmallPowers();
    hide Pow2;
    ByteWith(b, acc, u, Pow2(bits));
  }

  lemma AcrossWith(b0: nat, b1: nat, acc: nat, u: field, m: nat, k: nat, r: nat, x: nat)
    requires k * m == 256 && r * k == 32 && acc < m && r > 0 && x == acc + u * m
    requires b0 == x % 256 && b1 % r == x / 256
    ensures (b0 / m + b1 * k) % 32 == u
  {
    var n, j := x / 256, b1 / r;
    var h := u - k * n;
    assert b0 / m == h by {
      assert b0 == x - 256 * n;
      TakeOff(u, k, n, m);
      Nonnegative(h, m, acc, b0);
      DivOf(h, acc, m);
    }
    assert b1 * k == j * 32 + k * n by {
      assert b1 == j * r + n;
      PutOn(j, r, n, k);
    }
    assert b0 / m + b1 * k == j * 32 + u;
    ModOf(j, u, 32);
  }

  /** A field across two bytes. */
  lemma AcrossBytes(b0: nat, b1: nat, acc: nat, u: field, bits: nat)
    requires 3 < bits < 8 && acc < Pow2(bits)
    requires b0 == OrAt(acc, u, bits) % 256 && b1 % Pow2(bits - 3) == OrAt(acc, u, bits) / 256
    ensures (b0 / Pow2(bits) + b1 * Pow2(8 - bits)) % 32 == u
  {
    SmallPowers();
    hide Pow2;
    AcrossWith(b0, b1, acc, u, Pow2(bits), Pow2(8 - bits), Pow2(bits - 3), OrAt(acc, u, bits));
  }

  lemma Nonnegative(h: int, m: nat, d: nat, b: nat)
    requires b == h * m + d && d < m
    ensures h >= 0
  {
    assert (h + 1) * m == h * m + m;
    assert (h + 1) * m > 0;
  }

  /** The first byte begins with the pending bits and the first field. */
  lemma FirstByte(us: seq<field>, acc: nat, bits: nat)
    requires bits <= 3 && acc < Pow2(bits) && |us| > 0
    ensures |Scalar(us, acc, bits)| > 0 && Scalar(us, acc, bits)[0] % Pow2(bits + 5) == OrAt(acc, us[0], bits)
  {
    var next := OrAt(acc, us[0], bits);
    NextValue(acc, us[0], bits, 0);
    SmallPowers();
    hide Pow2, OrAt;
    if bits < 3 {
      PendingFirst(us[1..], next, bits + 5);
    }
  }

  /** The first two bytes, when the first field crosses into the second. */
  lemma FirstBytes(us: seq<field>, acc: nat, bits: nat)
    requires 3 < bits < 8 && acc < Pow2(bits) && |us| > 0
    ensures var bs, next := Scalar(us, acc, bits), OrAt(acc, us[0], bits);
            |bs| > 1 && bs[0] == next % 256 && bs[1] % Pow2(bits - 3) == next / 256
  {
    var next := OrAt(acc, us[0], bits);
    NextValue(acc, us[0], bits, 0);
    hide Pow2, OrAt;
    PendingFirst(us[1..], next / 256, bits - 3);
  }

  lemma ReadFirst(us: seq<field>, acc: nat, bits: nat)
    requires bits < 8 && acc < Pow2(bits) && |us| > 0
    ensures var bs := Scalar(us, acc, bits); Readable(bs, bits) && Read5(bs, bits) == Sign5(us[0])
  {
    hide Scalar, Sign5, Pow2, OrAt, Shr;
    var bs := Scalar(us, acc, bits);
    assert bits / 8 == 0 && bits % 8 == bits;
    if bits <= 3 {
      FirstByte(us, acc, bits);
      WithinByte(bs[0], acc, us[0], bits);
      ShrIs(bs[0], bits);
      SignTwice(Shr(bs[0], bits));
    } else {
      FirstBytes(us, acc, bits);
      AcrossBytes(bs[0], bs[1], acc, us[0], bits);
      ShrIs(bs[0], bits);
      SignTwice(Shr(bs[0], bits) + bs[1] * Pow2(8 - bits));
    }
  }

  /** Reading field `i` behind the pending bits gives it back and stays inside the buffer. */
  lemma {:induction false} ReadBack(us: seq<field>, acc: nat, bits: nat, i: nat)
    requires bits < 8 && acc < Pow2(bits) && i < |us|
    ensures var bs := Scalar(us, acc, bits); Readable(bs, bits + 5 * i) && Read5(bs, bits + 5 * i) == Sign5(us[i])
    decreases i
  {
    if i == 0 {
      ReadFirst(us, acc, bits);
    } else {
      SmallPowers();
      var next := OrAt(acc, us[0], bits);
      NextValue(acc, us[0], bits, 0);
      hide Pow2, OrAt, Read5, Sign5;
      if bits + 5 >= 8 {
        ReadBack(us[1..], next / 256, bits - 3, i - 1);
        ReadLater(next % 256, Scalar(us[1..], next / 256, bits - 3), bits + 5 * i);
      } else {
        ReadBack(us[1..], next, bits + 5, i - 1);
      }
    }
  }

  /** The round trip: reading at bit `5 * i` of the packed bytes gives value `i` back exactly when it fits five bits. */
  lemma RoundTrip(qs: seq<int>, i: nat)
    requires i < |qs|
    ensures Readable(Packed(qs), 5 * i) && (Read5(Packed(qs), 5 * i) == qs[i] <==> -16 <= qs[i] <= 15)
  {
    SmallPowers();
    ReadBack(Fields(qs), 0, 0, i);
    SignField(qs[i]);
  }

  // ---------------------------------------------------------------- the 40-bit word reader

  /** Five bytes or-ed into one little-endian word. */
  function OrBytes(bs: seq<byte>, at: nat): nat
    requires at + 5 <= |bs|
  {
    Or(Or(Or(Or(bs[at], Shl(bs[at + 1], 8)), Shl(bs[at + 2], 16)), Shl(bs[at + 3], 24)), Shl(bs[at + 4], 32))
  }

  lemma OrBytesIs(bs: seq<byte>, at: nat)
    requires at + 5 <= |bs|
    ensures OrBytes(bs, at) == Word40(bs, at)
  {
    WordPowers();
    hide Or, Shl, Pow2;
    var w1: nat := (bs[at] as nat) + 0x100 * (bs[at + 1] as nat);
    var w2: nat := w1 + 0x1_0000 * (bs[at + 2] as nat);
    var w3: nat := w2 + 0x100_0000 * (bs[at + 3] as nat);
    OrApart(bs[at], bs[at + 1], 8);
    OrApart(w1, bs[at + 2], 16);
    OrApart(w2, bs[at + 3], 24);
    OrApart(w3, bs[at + 4], 32);
  }

  /** Field `r` of a word, shifted down and masked. */
  lemma FieldIs(w: nat, r: nat)
    requires r < 8
    ensures MaskedSign5(Shr(w, 5 * r)) == WordField(w, r)
  {
    WordPowers();
    assert Pow2(0) == 1;
    MaskedSign5Is(Shr(w, 5 * r));
    ShrIs(w, 5 * r);
    hide MaskedSign5, Sign5, Pow2, Shr;
    assert ShiftedOut(w, r) == w / Pow2(5 * r);
  }

  /** The word as a sum. */
  function Word40(bs: seq<byte>, at: nat): nat
    requires at + 5 <= |bs|
  {
    (bs[at] as nat) + 0x100 * (bs[at + 1] as nat) + 0x1_0000 * (bs[at + 2] as nat) + 0x100_0000 * (bs[at + 3] as nat) +
    0x1_0000_0000 * (bs[at + 4] as nat)
  }

  /** The word shifted down to its field `r`, as the vector code shifts it. */
  function ShiftedOut(w: nat, r: nat): nat
    requires r < 8
  {
    match r
    case 0 => w
    case 1 => w / 0x20
    case 2 => w / 0x400
    case 3 => w / 0x8000
    case 4 => w / 0x10_0000
    case 5 => w / 0x200_0000
    case 6 => w / 0x4000_0000
    case _ => w / 0x8_0000_0000
  }

  function WordField(w: nat, r: nat): int
    requires r < 8
  {
    Sign5(ShiftedOut(w, r))
  }

  function FieldsOf(w: nat): (us: seq<field>)
    ensures |us| == 8 && forall r | 0 <= r < 8 :: us[r] == ShiftedOut(w, r) % 32
  {
    [ShiftedOut(w, 0) % 32, ShiftedOut(w, 1) % 32, ShiftedOut(w, 2) % 32, ShiftedOut(w, 3) % 32,
     ShiftedOut(w, 4) % 32, ShiftedOut(w, 5) % 32, ShiftedOut(w, 6) % 32, ShiftedOut(w, 7) % 32]
  }

  lemma ShiftedChain(w: nat)
    ensures ShiftedOut(w, 0) == w && ShiftedOut(w, 1) == w / 32
    ensures ShiftedOut(w, 2) == ShiftedOut(w, 1) / 32 && ShiftedOut(w, 3) == ShiftedOut(w, 2) / 32
    ensures ShiftedOut(w, 4) == ShiftedOut(w, 3) / 32 && ShiftedOut(w, 5) == ShiftedOut(w, 4) / 32
    ensures ShiftedOut(w, 6) == ShiftedOut(w, 5) / 32 && ShiftedOut(w, 7) == ShiftedOut(w, 6) / 32
    ensures w < W ==> ShiftedOut(w, 7) < 32
  {
  }

  lemma FieldsOfWord(w: nat)
    requires w < W
    ensures Word(FieldsOf(w)) == w
  {
    ShiftedChain(w);
    hide ShiftedOut;
  }

  lemma Peel(b: nat, rest: nat)
    requires b < 256
    ensures (b + 256 * rest) % 256 == b && (b + 256 * rest) / 256 == rest
  {
  }

  lemma FiveDigits(b0: nat, b1: nat, b2: nat, b3: nat, b4: nat)
    requires b0 < 256 && b1 < 256 && b2 < 256 && b3 < 256 && b4 < 256
    ensures var w := b0 + 0x100 * b1 + 0x1_0000 * b2 + 0x100_0000 * b3 + 0x1_0000_0000 * b4;
            w < W && w % 0x100 == b0 && w / 0x100 % 0x100 == b1 && w / 0x1_0000 % 0x100 == b2 &&
            w / 0x100_0000 % 0x100 == b3 && w / 0x1_0000_0000 % 0x100 == b4
  {
    var w3 := b3 + 256 * b4;
    var w2 := b2 + 256 * w3;
    var w1 := b1 + 256 * w2;
    var w := b0 + 256 * w1;
    Peel(b0, w1);
    Peel(b1, w2);
    Peel(b2, w3);
    Peel(b3, b4);
    Thirds(w);
  }

  lemma Thirds(w: nat)
    ensures w / 0x1_0000 == w / 0x100 / 0x100 && w / 0x100_0000 == w / 0x1_0000 / 0x100 &&
      w / 0x1_0000_0000 == w / 0x100_0000 / 0x100
  {
  }

  lemma BytesOfWord(bs: seq<byte>, at: nat)
    requires at + 5 <= |bs|
    ensures Word40(bs, at) < W && WordBytes(Word40(bs, at)) == bs[at..at + 5]
  {
    FiveDigits(bs[at], bs[at + 1], bs[at + 2], bs[at + 3], bs[at + 4]);
  }

  /** Reading inside a slice. */
  lemma ReadSlice(bs: seq<byte>, at: nat, p: nat)
    requires at + 5 <= |bs| && Readable(bs[at..at + 5], p)
    ensures Readable(bs, 8 * at + p) && Read5(bs, 8 * at + p) == Read5(bs[at..at + 5], p)
  {
    assert (8 * at + p) / 8 == at + p / 8 && (8 * at + p) % 8 == p % 8;
  }

  /** At a byte boundary the word reader and `q5_read5` agree on all eight fields. */
  lemma WordReads(bs: seq<byte>, at: nat, r: nat)
    requires at + 5 <= |bs| && r < 8
    ensures Readable(bs, 8 * at + 5 * r) && WordField(Word40(bs, at), r) == Read5(bs, 8 * at + 5 * r)
  {
    hide Scalar, Word, WordBytes, Word40, Read5, FieldsOf, ShiftedOut, Readable, Sign5;
    SmallPowers();
    var w := Word40(bs, at);
    var us := FieldsOf(w);
    BytesOfWord(bs, at);
    FieldsOfWord(w);
    assert us[..8] == us && us[8..] == [];
    WordStep(us);
    NothingLeft();
    ReadBack(us, 0, 0, r);
    assert Scalar(us, 0, 0) == bs[at..at + 5];
    ReadSlice(bs, at, 5 * r);
    SignTwice(ShiftedOut(w, r));
  }

  lemma SignTwice(v: nat)
    ensures Sign5(v % 32) == Sign5(v)
  {
  }
}
