/** Request, chunk-size and bin-index arithmetic on a 64-bit size_t. */
module Sizes {
  import opened Products

  const SIZE_T_LIMIT: nat := 0x1_0000_0000_0000_0000
  const U32_LIMIT: nat := 0x1_0000_0000

  const MIN_CHUNK_SIZE: nat := 32
  const MIN_LARGE_SIZE: nat := 256
  const MAX_SMALL_REQUEST: nat := 240
  const MIN_REQUEST: nat := 23
  const MAX_REQUEST: nat := SIZE_T_LIMIT - 4 * MIN_CHUNK_SIZE
  const TOP_FOOT_SIZE: nat := 72

  // ----- Requests -----

  function PadRequest(req: nat): nat { (req + 15) / 8 * 8 }

  function Request2Size(req: nat): nat {
    if req < MIN_REQUEST then MIN_CHUNK_SIZE else PadRequest(req)
  }

  /** A padded request holds the request and its head word, wastes less than 8 bytes past
      the minimum, does not wrap below MAX_REQUEST, and is small exactly for small requests. */
  lemma RequestExact(req: nat)
    requires req < MAX_REQUEST
    ensures var nb := Request2Size(req);
      && nb % 8 == 0 && MIN_CHUNK_SIZE <= nb < SIZE_T_LIMIT && req + 8 <= nb
      && (nb > MIN_CHUNK_SIZE ==> nb < req + 16)
      && (nb < MIN_LARGE_SIZE <==> req <= MAX_SMALL_REQUEST)
  {}

  predicate IsSmall(s: nat) { s / 8 < 32 }
  function SmallIndex(s: nat): nat { s / 8 }

  // ----- Powers of two -----

  function Pow2(k: nat): (p: nat)
    ensures p >= 1
  {
    if k == 0 then 1 else 2 * Pow2(k - 1)
  }

  lemma SmallPowers()
    ensures Pow2(0) == 1 && Pow2(1) == 2 && Pow2(2) == 4 && Pow2(3) == 8 && Pow2(4) == 16
    ensures Pow2(5) == 32 && Pow2(6) == 64 && Pow2(7) == 128 && Pow2(8) == 256
  {}

  lemma {:induction false} PowAdd(a: nat, b: nat)
    ensures Pow2(a + b) == Pow2(a) * Pow2(b)
  {
    if a > 0 {
      PowAdd(a - 1, b);
    }
  }

  lemma {:induction false} PowMonotone(a: nat, b: nat)
    requires a <= b
    ensures Pow2(a) <= Pow2(b)
  {
    if a < b {
      PowMonotone(a, b - 1);
    }
  }

  lemma Pow64()
    ensures Pow2(64) == SIZE_T_LIMIT
  {
    SmallPowers();
    PowAdd(8, 8);
    PowAdd(16, 16);
    PowAdd(32, 32);
  }

  // ----- Tree bins -----

  /** x & b for a power of two b. */
  function AndBit(x: nat, b: nat): nat
    requires b > 0
  {
    x / b % 2 * b
  }

  function Sub32(x: nat, y: nat): nat { (x - y) % U32_LIMIT }
  function Shl32(x: nat, k: nat): nat { x * Pow2(k) % U32_LIMIT }

  /** The place of the leading one of x, for 0 < x <= 0xFFFF, by the portable
      subtract-and-mask ladder on 32-bit words. */
  function LeadingBit(x: nat): int {
    var n := AndBit(Sub32(x, 0x100) / 0x1_0000, 8);
    var y1 := Shl32(x, n);
    var k1 := AndBit(Sub32(y1, 0x1000) / 0x1_0000, 4);
    var y2 := Shl32(y1, k1);
    var k2 := AndBit(Sub32(y2, 0x4000) / 0x1_0000, 2);
    var y3 := Shl32(y2, k2);
    14 - (n + k1 + k2) + y3 / 0x8000
  }

  function TreeIndex(s: nat): nat {
    var x := s / 256;
    if x == 0 then 0
    else if x > 0xFFFF then 31
    else
      LeadingBitExact(x);
      var k := LeadingBit(x);
      2 * k + s / Pow2(k + 7) % 2
  }

  /** The size of the smallest chunk held in tree bin i. */
  function MinSize(i: nat): nat { Pow2(i / 2 + 8) + i % 2 * Pow2(i / 2 + 7) }

  lemma LadderTest(y: nat, t: nat, b: nat)
    requires 0 < y <= 0xFFFF
    requires (b == 8 && t == 0x100) || (b == 4 && t == 0x1000) || (b == 2 && t == 0x4000)
    ensures AndBit(Sub32(y, t) / 0x1_0000, b) == if y < t then b else 0
  {
    if y < t {
      assert Sub32(y, t) == U32_LIMIT + y - t;
      assert Sub32(y, t) / 0x1_0000 == 0xFFFF;
    } else {
      assert Sub32(y, t) / 0x1_0000 == 0;
    }
  }

  lemma LadderShift(y: nat, t: nat, b: nat)
    requires 0 < y <= 0xFFFF
    requires (b == 8 && t == 0x100) || (b == 4 && t == 0x1000) || (b == 2 && t == 0x4000)
    ensures var k := if y < t then b else 0;
      && Shl32(y, k) == y * Pow2(k) && (y < t ==> Shl32(y, k) <= 0xFFFF)
      && (b == 8 ==> Pow2(k) == if y < t then 256 else 1)
      && (b == 4 ==> Pow2(k) == if y < t then 16 else 1)
      && (b == 2 ==> Pow2(k) == if y < t then 4 else 1)
  {
    SmallPowers();
  }

  lemma LadderSum(x: nat, s: nat, y: nat)
    requires 0x4000 <= y <= 0xFFFF && s % 2 == 0 && s <= 14 && x * Pow2(s) == y
    ensures var k := 14 - s + y / 0x8000; Pow2(k) <= x < 2 * Pow2(k)
  {
    var k := 14 - s + y / 0x8000;
    PowAdd(s, k);
    SmallPowers();
    assert Pow2(10) == 1024 && Pow2(12) == 4096 && Pow2(14) == 0x4000 && Pow2(15) == 0x8000;
    var p, q := Pow2(s), Pow2(k);
    assert p * q <= y < 2 * (p * q);
    assert x * p < 2 * q * p;
    if x < q { MulStep(x, q, p); }
    if x >= 2 * q { MulLeq(2 * q, x, p); }
  }

  lemma LadderCompose(x: nat, a: nat, b: nat, c: nat)
    ensures x * Pow2(a) * Pow2(b) * Pow2(c) == x * Pow2(a + b + c)
  {
    hide Pow2;
    PowAdd(a, b);
    PowAdd(a + b, c);
    var p, q, r := Pow2(a), Pow2(b), Pow2(c);
    assert x * p * q * r == x * (p * q * r);
  }

  lemma LeadingBitExact(x: nat)
    requires 0 < x <= 0xFFFF
    ensures 0 <= LeadingBit(x) <= 15
    ensures Pow2(LeadingBit(x)) <= x < 2 * Pow2(LeadingBit(x))
  {
    hide AndBit, Sub32, Shl32, Pow2;
    LadderTest(x, 0x100, 8);
    LadderShift(x, 0x100, 8);
    var n := if x < 0x100 then 8 else 0;
    var y1 := Shl32(x, n);
    LadderTest(y1, 0x1000, 4);
    LadderShift(y1, 0x1000, 4);
    var k1 := if y1 < 0x1000 then 4 else 0;
    var y2 := Shl32(y1, k1);
    LadderTest(y2, 0x4000, 2);
    LadderShift(y2, 0x4000, 2);
    var k2 := if y2 < 0x4000 then 2 else 0;
    var y3 := Shl32(y2, k2);
    assert 0x4000 <= y3 <= 0xFFFF;
    LadderCompose(x, n, k1, k2);
    LadderSum(x, n + k1 + k2, y3);
  }

  predicate InBin(i: nat, s: nat) { MinSize(i) <= s && (i < 31 ==> s < MinSize(i + 1)) }

  lemma MinSizeStep(k: nat)
    ensures MinSize(2 * k) == 2 * Pow2(k + 7)
    ensures MinSize(2 * k + 1) == 3 * Pow2(k + 7)
    ensures MinSize(2 * k + 2) == 4 * Pow2(k + 7)
  {
    assert Pow2(k + 8) == 2 * Pow2(k + 7);
    assert Pow2(k + 9) == 2 * Pow2(k + 8);
    assert (2 * k) / 2 == k && (2 * k + 1) / 2 == k && (2 * k + 2) / 2 == k + 1;
    assert (2 * k) % 2 == 0 && (2 * k + 1) % 2 == 1 && (2 * k + 2) % 2 == 0;
  }

  lemma HalfBit(s: nat, p: nat)
    requires p > 0 && 2 * p <= s < 4 * p
    ensures s / p % 2 == if s < 3 * p then 0 else 1
  {
    if s < 3 * p { Quotient(s, p, 2, s - 2 * p); } else { Quotient(s, p, 3, s - 3 * p); }
  }

  lemma ByteShift(s: nat, k: nat)
    requires Pow2(k) <= s / 256 < 2 * Pow2(k)
    ensures 2 * Pow2(k + 7) <= s < 4 * Pow2(k + 7)
  {
    SmallPowers();
    PowAdd(k, 7);
  }

  /** compute_tree_index puts every large size into the one bin whose bounds bracket it. */
  lemma TreeIndexBrackets(s: nat)
    requires s >= MIN_LARGE_SIZE
    ensures TreeIndex(s) < 32 && InBin(TreeIndex(s), s)
  {
    hide LeadingBit, Pow2;
    var x := s / 256;
    if x > 0xFFFF {
      MinSizeStep(15);
      PowMonotone(22, 24);
      Pow24();
    } else {
      LeadingBitExact(x);
      var k := LeadingBit(x);
      ByteShift(s, k);
      HalfBit(s, Pow2(k + 7));
      MinSizeStep(k);
    }
  }

  lemma Pow24()
    ensures Pow2(22) == 0x40_0000 && Pow2(24) == 0x100_0000
  {
    SmallPowers();
    PowAdd(8, 8);
    PowAdd(16, 6);
    PowAdd(16, 8);
  }

  lemma MinSizeUp(i: nat)
    ensures MinSize(i) < MinSize(i + 1)
  {
    hide MinSize, Pow2;
    var k := i / 2;
    MinSizeStep(k);
    if i == 2 * k {} else { assert i == 2 * k + 1; }
  }

  lemma {:induction false} MinSizeMonotone(i: nat, j: nat)
    requires i < j
    ensures MinSize(i) < MinSize(j)
  {
    hide MinSize;
    MinSizeUp(j - 1);
    if i < j - 1 {
      MinSizeMonotone(i, j - 1);
    }
  }

  /** Bins do not overlap and are ordered by the sizes they hold. */
  lemma BinsOrdered(i: nat, s: nat, j: nat, t: nat)
    requires i < 32 && j < 32 && InBin(i, s) && InBin(j, t) && s <= t
    ensures i <= j
  {
    hide MinSize;
    if j < i {
      if j + 1 < i { MinSizeMonotone(j + 1, i); }
    }
  }

  lemma TreeIndexUnique(i: nat, s: nat)
    requires i < 32 && s >= MIN_LARGE_SIZE
    ensures InBin(i, s) <==> TreeIndex(s) == i
  {
    hide TreeIndex, MinSize;
    TreeIndexBrackets(s);
    if InBin(i, s) {
      BinsOrdered(i, s, TreeIndex(s), s);
      BinsOrdered(TreeIndex(s), s, i, s);
    }
  }

  /** compute_tree_index is monotone in the size. */
  lemma TreeIndexMonotone(s: nat, t: nat)
    requires s <= t
    ensures TreeIndex(s) <= TreeIndex(t)
  {
    if s >= MIN_LARGE_SIZE {
      hide TreeIndex, MinSize;
      TreeIndexBrackets(s);
      TreeIndexBrackets(t);
      BinsOrdered(TreeIndex(s), s, TreeIndex(t), t);
    }
  }

  // ----- The power-of-two range of sizes a tree resolves -----

  /** bit_for_tree_index(i) + 1: how many size bits a tree in bin i inspects. */
  function Width(i: nat): nat { if i == 31 then 64 else i / 2 + 7 }
  function Base(i: nat): nat { if i == 31 then 0 else MinSize(i) }
  function LeftShift(i: nat): nat
    requires i < 32
  {
    if i == 31 then 0 else 63 - (i / 2 + 6)
  }

  lemma BaseMultiple(i: nat)
    requires i < 31
    ensures Base(i) == (2 + i % 2) * Pow2(Width(i)) && MinSize(i + 1) == Base(i) + Pow2(Width(i))
  {
    hide MinSize, Pow2;
    var k := i / 2;
    MinSizeStep(k);
    if i == 2 * k {} else { assert i == 2 * k + 1; }
  }

  /** The sizes of bin i all lie in one range of length 2^Width(i). */
  lemma BinRange(i: nat, s: nat)
    requires i < 32 && InBin(i, s) && s < SIZE_T_LIMIT
    ensures Base(i) <= s < Base(i) + Pow2(Width(i))
  {
    hide MinSize, Pow2;
    if i == 31 {
      Pow64();
    } else {
      BaseMultiple(i);
    }
  }

  lemma {:induction false} ModMultiple(d: nat, c: nat, n: nat)
    requires d < n
    ensures (d + c * n) % n == d
  {
    if c > 0 {
      ModMultiple(d, c - 1, n);
      assert d + c * n == d + (c - 1) * n + n;
      ModAdd(d + (c - 1) * n, n);
    }
  }

  lemma ModAdd(a: nat, n: nat)
    requires n > 0
    ensures (a + n) % n == a % n
  {
    var q := a / n;
    assert a + n == (q + 1) * n + a % n;
    Quotient(a + n, n, q + 1, a % n);
  }

  /** The size shifted so that the first bit its tree inspects is the sign bit. */
  function SizeBits(i: nat, s: nat): nat
    requires i < 32
  {
    s * Pow2(LeftShift(i)) % SIZE_T_LIMIT
  }

  lemma SizeBitsExact(i: nat, s: nat)
    requires i < 32 && InBin(i, s) && s < SIZE_T_LIMIT
    ensures SizeBits(i, s) < SIZE_T_LIMIT
    ensures SizeBits(i, s) * Pow2(Width(i)) == (s - Base(i)) * SIZE_T_LIMIT
  {
    hide MinSize, Pow2;
    BinRange(i, s);
    if i == 31 {
      Pow64();
      SmallPowers();
    } else {
      var p, w, d := Pow2(LeftShift(i)), Pow2(Width(i)), s - Base(i);
      PowAdd(LeftShift(i), Width(i));
      Pow64();
      BaseMultiple(i);
      var c := 2 + i % 2;
      ShiftSplit(s, d, c, w, p);
      MulStep(d, w, p);
      ModMultiple(d * p, c, SIZE_T_LIMIT);
      assert d * p * w == d * (p * w);
    }
  }

  lemma ShiftSplit(s: nat, d: nat, c: nat, w: nat, p: nat)
    requires s == d + c * w
    ensures s * p == d * p + c * (p * w)
  {
    assert (d + c * w) * p == d * p + c * w * p;
    assert c * w * p == c * (p * w);
  }
}
