/** Bitwise operations on unsigned words, as arithmetic: masks, power-of-two tests, kroundup32. */
module Words {
  import opened Products
  import opened Sizes

  /** x & y */
  function BitAnd(x: nat, y: nat): nat {
    if x == 0 || y == 0 then 0 else 2 * BitAnd(x / 2, y / 2) + if x % 2 == 1 && y % 2 == 1 then 1 else 0
  }

  ghost predicate PowerOfTwo(a: nat) { exists k: nat :: a == Pow2(k) }

  lemma {:induction false} BitAndSelf(x: nat)
    ensures BitAnd(x, x) == x
  {
    if x > 0 { BitAndSelf(x / 2); }
  }

  /** (a & (a - 1)) == 0 recognises the powers of two. */
  lemma {:induction false} PowerTest(a: nat)
    requires a > 0
    ensures BitAnd(a, a - 1) == 0 <==> PowerOfTwo(a)
  {
    if a == 1 {
      assert a == Pow2(0);
    } else if a % 2 == 0 {
      PowerTest(a / 2);
      assert (a - 1) / 2 == a / 2 - 1;
      if k: nat :| a / 2 == Pow2(k) { assert a == Pow2(k + 1); }
      if k: nat :| a == Pow2(k) { assert a / 2 == Pow2(k - 1); }
    } else {
      BitAndSelf(a / 2);
      forall k: nat ensures a != Pow2(k) { if k > 0 { assert Pow2(k) == 2 * Pow2(k - 1); } }
    }
  }

  lemma BitAndStep(x: nat, y: nat)
    ensures BitAnd(x, y) == 2 * BitAnd(x / 2, y / 2) + if y % 2 == 0 then 0 else x % 2
  {}

  /** Masking with the two's complement of a power of two rounds down: x & -2^j in w bits. */
  lemma {:induction false} MaskRounds(w: nat, x: nat, j: nat)
    requires x < Pow2(w) && j <= w
    ensures Pow2(j) <= Pow2(w) && BitAnd(x, Pow2(w) - Pow2(j)) == x - x % Pow2(j)
    decreases w
  {
    hide BitAnd;
    PowMonotone(j, w);
    BitAndZero(Pow2(w) - Pow2(j));
    if w > 0 {
      var p := Pow2(w - 1);
      if j == 0 {
        MaskRounds(w - 1, x / 2, 0);
        MaskOdd(x, p);
      } else {
        MaskRounds(w - 1, x / 2, j - 1);
        MaskEven(x, p, Pow2(j - 1));
      }
    }
  }

  lemma BitAndZero(y: nat)
    ensures BitAnd(0, y) == 0
  {}

  lemma MaskOdd(x: nat, p: nat)
    requires p > 0 && BitAnd(x / 2, p - 1) == x / 2
    ensures BitAnd(x, 2 * p - 1) == x
  {
    hide BitAnd;
    BitAndStep(x, 2 * p - 1);
    assert (2 * p - 1) / 2 == p - 1;
  }

  lemma MaskEven(x: nat, p: nat, q: nat)
    requires 0 < q <= p && BitAnd(x / 2, p - q) == x / 2 - x / 2 % q
    ensures BitAnd(x, 2 * p - 2 * q) == x - x % (2 * q)
  {
    hide BitAnd;
    BitAndStep(x, 2 * p - 2 * q);
    assert (2 * p - 2 * q) / 2 == p - q;
    ModDouble(x, q);
  }

  lemma ModDouble(x: nat, q: nat)
    requires q > 0
    ensures x % (2 * q) == 2 * (x / 2 % q) + x % 2
  {
    var y := x / 2;
    var r := 2 * (y % q) + x % 2;
    assert x == 2 * q * (y / q) + r;
    Quotient(x, 2 * q, y / q, r);
  }

  /** Masking with 2^j - 1 takes the remainder. */
  lemma {:induction false} LowMask(x: nat, j: nat)
    ensures BitAnd(x, Pow2(j) - 1) == x % Pow2(j)
  {
    if j > 0 {
      LowMask(x / 2, j - 1);
      MaskLow(x, Pow2(j - 1));
    }
  }

  lemma MaskLow(x: nat, q: nat)
    requires q > 0 && BitAnd(x / 2, q - 1) == x / 2 % q
    ensures BitAnd(x, 2 * q - 1) == x % (2 * q)
  {
    hide BitAnd;
    BitAndStep(x, 2 * q - 1);
    assert (2 * q - 1) / 2 == q - 1;
    ModDouble(x, q);
  }

  // ----- Powers of two -----

  /** The least power of two not below x. */
  function LeastPow2(x: nat): nat { if x <= 1 then 1 else 2 * LeastPow2((x + 1) / 2) }

  lemma LeastPow2Halves(x: nat)
    requires x > 1
    ensures LeastPow2(x) == 2 * LeastPow2((x + 1) / 2)
  {}

  lemma EvenPower(k: nat)
    ensures Pow2(k) == 1 || Pow2(k) % 2 == 0
  {
    if k > 0 { assert Pow2(k) == 2 * Pow2(k - 1); }
  }

  /** An odd x is not a power of two, so its half rounds to less than it. */
  lemma DoubledHalf(x: nat, h: nat, l: nat)
    requires x > 1 && h == (x + 1) / 2 && h <= l < 2 * h && (l == 1 || l % 2 == 0)
    ensures x <= 2 * l < 2 * x
  {}

  lemma {:induction false} LeastPow2Exact(x: nat)
    requires x > 0
    ensures PowerOfTwo(LeastPow2(x)) && x <= LeastPow2(x) < 2 * x
  {
    if x == 1 {
      assert LeastPow2(x) == Pow2(0);
    } else {
      hide LeastPow2, Pow2;
      var h := (x + 1) / 2;
      LeastPow2Halves(x);
      LeastPow2Exact(h);
      var k: nat :| LeastPow2(h) == Pow2(k);
      EvenPower(k);
      PowNext(k);
      DoubledHalf(x, h, LeastPow2(h));
      assert LeastPow2(x) == Pow2(k + 1);
    }
  }

  /** Between x and 2x there is no second power of two. */
  lemma OnlyOne(x: nat, j: nat)
    requires x > 0 && x <= Pow2(j) < 2 * x
    ensures Pow2(j) == LeastPow2(x)
  {
    LeastPow2Exact(x);
    var k: nat :| LeastPow2(x) == Pow2(k);
    assert Pow2(j + 1) == 2 * Pow2(j) && Pow2(k + 1) == 2 * Pow2(k);
    if j < k { PowMonotone(j + 1, k); }
    if k < j { PowMonotone(k + 1, j); }
  }

  lemma PowNext(j: nat)
    ensures Pow2(j + 1) == 2 * Pow2(j)
  {}

  lemma Pow16(j: nat)
    requires j == 4
    ensures Pow2(j) == 16
  {
    SmallPowers();
  }

  // Given as a variable, the exponent is not unrolled by the solver.
  lemma PowLimit(w: nat)
    requires w == 64
    ensures Pow2(w) == SIZE_T_LIMIT && Pow2(w - 1) == SIZE_T_LIMIT / 2
  {
    Pow64();
  }

  // ----- kroundup32 -----

  /** x | y */
  function BitOr(x: nat, y: nat): nat {
    if x == 0 && y == 0 then 0 else 2 * BitOr(x / 2, y / 2) + if x % 2 == 1 || y % 2 == 1 then 1 else 0
  }

  function Smear(y: nat): nat {
    var y1 := BitOr(y, y / 2);
    var y2 := BitOr(y1, y1 / 4);
    var y3 := BitOr(y2, y2 / 16);
    var y4 := BitOr(y3, y3 / 256);
    BitOr(y4, y4 / 65536)
  }

  /** The 32-bit decrement and increment wrap. */
  function RoundUp32(x: nat): nat {
    (Smear(if x == 0 then U32_LIMIT - 1 else x - 1) + 1) % U32_LIMIT
  }

  /** x >> t */
  function Shift(x: nat, t: nat): nat decreases t { if t == 0 then x else Shift(x / 2, t - 1) }

  lemma {:induction false} ShiftAdd(x: nat, a: nat, b: nat)
    ensures Shift(Shift(x, a), b) == Shift(x, a + b)
    decreases a
  {
    if a > 0 { ShiftAdd(x / 2, a - 1, b); }
  }

  lemma {:induction false} OrShift(x: nat, y: nat, t: nat)
    ensures Shift(BitOr(x, y), t) == BitOr(Shift(x, t), Shift(y, t))
    decreases t
  {
    if t > 0 {
      assert BitOr(x, y) / 2 == BitOr(x / 2, y / 2);
      OrShift(x / 2, y / 2, t - 1);
    }
  }

  lemma DoubleProduct(a: nat, q: nat)
    ensures a * (2 * q) == 2 * (a * q)
  {}

  lemma {:induction false} ShiftSplits(x: nat, t: nat)
    ensures Shift(x, t) * Pow2(t) <= x < Shift(x, t) * Pow2(t) + Pow2(t)
    decreases t
  {
    if t > 0 {
      ShiftSplits(x / 2, t - 1);
      DoubleProduct(Shift(x, t), Pow2(t - 1));
    }
  }

  lemma {:induction false} OrOnes(u: nat, s: nat)
    ensures BitOr(u, Pow2(s) - 1) == Shift(u, s) * Pow2(s) + Pow2(s) - 1
    decreases s
  {
    if s == 0 {
      OrNothing(u);
    } else {
      OrOnes(u / 2, s - 1);
      OrOne(u, Pow2(s - 1), Shift(u, s));
    }
  }

  lemma OrOne(u: nat, q: nat, h: nat)
    requires q > 0 && BitOr(u / 2, q - 1) == h * q + q - 1
    ensures BitOr(u, 2 * q - 1) == h * (2 * q) + 2 * q - 1
  {
    assert (2 * q - 1) / 2 == q - 1;
    DoubleProduct(h, q);
  }

  lemma {:induction false} OrNothing(u: nat)
    ensures BitOr(u, 0) == u
  {
    if u > 0 { OrNothing(u / 2); }
  }

  lemma {:induction false} OnesShift(s: nat, t: nat)
    requires t <= s
    ensures Shift(Pow2(s) - 1, t) == Pow2(s - t) - 1
    decreases t
  {
    if t > 0 {
      assert (Pow2(s) - 1) / 2 == Pow2(s - 1) - 1;
      OnesShift(s - 1, t - 1);
    }
  }

  /** The low k + 1 bits of y, from the top: s ones, or nothing but ones. */
  ghost predicate Filled(y: nat, k: nat, s: nat) {
    if s <= k + 1 then Shift(y, k + 1 - s) == Pow2(s) - 1 else y == Pow2(k + 1) - 1
  }

  /** y | y >> s doubles the ones. */
  lemma FillStep(y: nat, k: nat, s: nat)
    requires Filled(y, k, s) && s > 0
    ensures Filled(BitOr(y, Shift(y, s)), k, 2 * s)
  {
    if s > k + 1 {
      OnesGone(k + 1, s);
      OrNothing(y);
    } else {
      var c := k + 1 - s;
      ShiftAdd(y, c, s);
      ShiftAdd(y, s, c);
      if 2 * s <= k + 1 {
        FillWide(y, k, s);
      } else {
        FillNarrow(y, s, c);
      }
    }
  }

  lemma {:induction false} OnesGone(k: nat, s: nat)
    requires k <= s
    ensures Shift(Pow2(k) - 1, s) == 0
    decreases s
  {
    if k > 0 {
      assert (Pow2(k) - 1) / 2 == Pow2(k - 1) - 1;
      OnesGone(k - 1, s - 1);
    } else if s > 0 {
      OnesGone(0, s - 1);
    }
  }

  lemma FillWide(y: nat, k: nat, s: nat)
    requires s > 0 && 2 * s <= k + 1 && Shift(y, k + 1 - s) == Pow2(s) - 1
    ensures Shift(BitOr(y, Shift(y, s)), k + 1 - 2 * s) == Pow2(2 * s) - 1
  {
    hide BitOr, Shift, Pow2;
    var r := k + 1 - 2 * s;
    OrShift(y, Shift(y, s), r);
    ShiftAdd(y, s, r);
    ShiftAdd(y, r, s);
    OrOnes(Shift(y, r), s);
    PowAdd(s, s);
    assert (Pow2(s) - 1) * Pow2(s) + Pow2(s) == Pow2(s) * Pow2(s);
  }

  lemma FillNarrow(y: nat, s: nat, c: nat)
    requires c < s && Shift(y, c) == Pow2(s) - 1
    ensures BitOr(y, Shift(y, s)) == Pow2(s + c) - 1
  {
    hide BitOr, Shift, Pow2;
    ShiftAdd(y, c, s - c);
    OnesShift(s, s - c);
    OrOnes(y, c);
    PowAdd(s, c);
    assert (Pow2(s) - 1) * Pow2(c) + Pow2(c) == Pow2(s) * Pow2(c);
  }

  lemma ShiftByWords(y: nat)
    ensures Shift(y, 1) == y / 2 && Shift(y, 2) == y / 4 && Shift(y, 4) == y / 16
    ensures Shift(y, 8) == y / 256 && Shift(y, 16) == y / 65536
  {
    ShiftAdd(y, 1, 1);
    ShiftAdd(y, 2, 2);
    ShiftAdd(y, 4, 4);
    ShiftAdd(y, 8, 8);
  }

  lemma SmearExact(y: nat, k: nat)
    requires Pow2(k) <= y < Pow2(k + 1) && k < 32
    ensures Smear(y) == Pow2(k + 1) - 1
  {
    hide BitOr, Shift, Pow2, Filled;
    FilledStart(y, k);
    ShiftByWords(y);
    var y1 := BitOr(y, y / 2);
    FillStep(y, k, 1);
    ShiftByWords(y1);
    var y2 := BitOr(y1, y1 / 4);
    FillStep(y1, k, 2);
    ShiftByWords(y2);
    var y3 := BitOr(y2, y2 / 16);
    FillStep(y2, k, 4);
    ShiftByWords(y3);
    var y4 := BitOr(y3, y3 / 256);
    FillStep(y3, k, 8);
    ShiftByWords(y4);
    FillStep(y4, k, 16);
    FilledEnd(Smear(y), k);
  }

  lemma FilledStart(y: nat, k: nat)
    requires Pow2(k) <= y < Pow2(k + 1)
    ensures Filled(y, k, 1)
  {
    ShiftSplits(y, k);
    var s := Shift(y, k);
    if s >= 2 { MulLeq(2, s, Pow2(k)); }
  }

  lemma FilledEnd(y: nat, k: nat)
    requires Filled(y, k, 32) && k < 32
    ensures y == Pow2(k + 1) - 1
  {}

  lemma {:induction false} HighBit(y: nat, w: nat) returns (k: nat)
    requires 0 < y < Pow2(w)
    ensures k < w && Pow2(k) <= y < Pow2(k + 1)
  {
    if y < Pow2(w - 1) { k := HighBit(y, w - 1); } else { k := w - 1; }
  }

  /** kroundup32 takes x to the least power of two not below it; past 2^31 it wraps to zero. */
  lemma RoundUp32Exact(x: nat)
    requires x < U32_LIMIT
    ensures RoundUp32(x) == if 0 < x <= U32_LIMIT / 2 then LeastPow2(x) else 0
  {
    hide Smear, LeastPow2;
    var y, w := if x == 0 then U32_LIMIT - 1 else x - 1, 32;
    Pow32(w);
    var v := w - 1;
    if y == 0 {
      SmearZero();
      LeastPow2Exact(1);
    } else {
      var k := HighBit(y, w);
      SmearExact(y, k);
      if x > U32_LIMIT / 2 || x == 0 {
        if k < w - 1 { PowMonotone(k + 1, w - 1); }
      } else {
        if k + 1 > w - 1 { PowMonotone(v, k); }
        PowMonotone(k + 1, w - 1);
        OnlyOne(x, k + 1);
      }
    }
  }

  lemma SmearZero()
    ensures Smear(0) == 0
  {}

  lemma Pow32(w: nat)
    requires w == 32
    ensures Pow2(w) == U32_LIMIT && Pow2(w - 1) == U32_LIMIT / 2
  {
    SmallPowers();
    PowAdd(8, 8);
    PowAdd(16, 16);
  }

  /** Doubling a power of two by rounding up its successor stops working at 2^31. */
  lemma DoublingExact(n: nat)
    requires PowerOfTwo(n) && n <= U32_LIMIT / 2
    ensures RoundUp32(n + 1) == 2 * n <==> n <= U32_LIMIT / 4
  {
    hide RoundUp32, LeastPow2, Pow2;
    RoundUp32Exact(n + 1);
    if n <= U32_LIMIT / 4 {
      DoubleRounds(n);
    } else {
      SecondLargest(n);
    }
  }

  lemma DoubleRounds(n: nat)
    requires PowerOfTwo(n)
    ensures LeastPow2(n + 1) == 2 * n
  {
    var k: nat :| n == Pow2(k);
    OnlyOne(n + 1, k + 1);
  }

  lemma SecondLargest(n: nat)
    requires PowerOfTwo(n) && U32_LIMIT / 4 < n <= U32_LIMIT / 2
    ensures n == U32_LIMIT / 2
  {
    var k: nat :| n == Pow2(k);
    var w := 32;
    Pow32(w);
    assert Pow2(w - 1) == 2 * Pow2(w - 2);
    if k < w - 1 { PowMonotone(k, w - 2); }
    if k > w - 1 { PowMonotone(w, k); }
  }

  /** Rounding up the predecessor of a table size of four or more gives the size back. */
  lemma SameRounds(n: nat)
    requires PowerOfTwo(n) && 4 <= n <= U32_LIMIT / 2
    ensures RoundUp32(n - 1) == n
  {
    hide RoundUp32, LeastPow2;
    RoundUp32Exact(n - 1);
    var k: nat :| n == Pow2(k);
    OnlyOne(n - 1, k);
  }
}
