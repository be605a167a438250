/** The 32-bit bin maps: one bit a bin, set exactly when the bin holds a chunk. */
module BinMaps {

  // ----- Operations on bin maps -----

  // The word operations are named so that proofs about maps can keep them folded.
  function And(a: bv32, b: bv32): bv32 { a & b }
  function Or(a: bv32, b: bv32): bv32 { a | b }
  function Not(a: bv32): bv32 { !a }
  function Below(b: bv32): bv32 { b - 1 }

  /** 1 << i, shifted one place at a time. */
  function Idx2Bit(i: nat): bv32 {
    if i == 0 then 1 else Idx2Bit(i - 1) << 1
  }

  function Mark(m: bv32, i: nat): bv32 { Or(m, Idx2Bit(i)) }
  function Clear(m: bv32, i: nat): bv32 { And(m, Not(Idx2Bit(i))) }
  predicate Marked(m: bv32, i: nat) { And(m, Idx2Bit(i)) != 0 }

  function Shr(m: bv32, i: nat): bv32 decreases i { if i == 0 then m else Shr(m >> 1, i - 1) }
  function Shl(m: bv32, i: nat): bv32 decreases i { if i == 0 then m else Shl(m << 1, i - 1) }

  function LeastBit(x: bv32): bv32 { x & -x }
  function LeftBits(x: bv32): bv32 { (x << 1) | -(x << 1) }

  /** The portable bit-to-index ladder. */
  function Bit2IdxWord(x: bv32): bv32 {
    var y0 := x - 1;
    var k0 := (y0 >> 12) & 16;
    var y1 := y0 >> k0;
    var k1 := (y1 >> 5) & 8;
    var y2 := y1 >> k1;
    var k2 := (y2 >> 2) & 4;
    var y3 := y2 >> k2;
    var k3 := (y3 >> 1) & 2;
    var y4 := y3 >> k3;
    var k4 := y4 & 1;
    var y5 := y4 >> k4;
    k0 + k1 + k2 + k3 + k4 + y5
  }

  function Bit2Idx(x: bv32): nat { Bit2IdxWord(x) as nat }

  // ----- Single bits -----

  lemma {:induction false} BitsDisjoint(i: nat, j: nat)
    requires i < j
    ensures And(Idx2Bit(i), Idx2Bit(j)) == 0 == And(Idx2Bit(j), Idx2Bit(i))
  {
    if i > 0 {
      BitsDisjoint(i - 1, j - 1);
    }
  }

  lemma {:induction false} ZeroStays(i: nat, j: nat)
    requires i <= j && Idx2Bit(i) == 0
    ensures Idx2Bit(j) == 0
  {
    if i < j {
      ZeroStays(i, j - 1);
    }
  }

  lemma BitValues()
    ensures Idx2Bit(0) == 0x1 && Idx2Bit(8) == 0x100 && Idx2Bit(16) == 0x1_0000 && Idx2Bit(24) == 0x100_0000
    ensures Idx2Bit(31) == 0x8000_0000 && Idx2Bit(32) == 0
  {
    assert Idx2Bit(2) == 0x4 && Idx2Bit(4) == 0x10 && Idx2Bit(6) == 0x40 && Idx2Bit(8) == 0x100;
    assert Idx2Bit(10) == 0x400 && Idx2Bit(12) == 0x1000 && Idx2Bit(14) == 0x4000 && Idx2Bit(16) == 0x1_0000;
    assert Idx2Bit(18) == 0x4_0000 && Idx2Bit(20) == 0x10_0000 && Idx2Bit(22) == 0x40_0000;
    assert Idx2Bit(24) == 0x100_0000 && Idx2Bit(26) == 0x400_0000 && Idx2Bit(28) == 0x1000_0000;
    assert Idx2Bit(30) == 0x4000_0000;
  }

  lemma BitNonzero(i: nat)
    requires i < 32
    ensures Idx2Bit(i) != 0
  {
    BitValues();
    if Idx2Bit(i) == 0 {
      ZeroStays(i, 31);
    }
  }

  // ----- Mark and clear -----

  lemma ClearApart(m: bv32, b: bv32, c: bv32)
    requires And(b, c) == 0
    ensures And(And(m, Not(b)), c) == And(m, c)
  {}

  lemma MarkApart(m: bv32, b: bv32, c: bv32)
    requires And(b, c) == 0
    ensures And(Or(m, b), c) == And(m, c)
  {}

  lemma MarkClearSelf(m: bv32, b: bv32)
    ensures And(And(m, Not(b)), b) == 0 && And(Or(m, b), b) == b
  {}

  lemma MarkClearBit(m: bv32, i: nat, j: nat)
    requires i < 32 && j < 32
    ensures Marked(Mark(m, i), j) <==> i == j || Marked(m, j)
    ensures Marked(Clear(m, i), j) <==> i != j && Marked(m, j)
  {
    hide Idx2Bit, And, Or, Not;
    if i == j {
      MarkClearSelf(m, Idx2Bit(i));
      BitNonzero(i);
    } else {
      if i < j { BitsDisjoint(i, j); } else { BitsDisjoint(j, i); }
      ClearApart(m, Idx2Bit(i), Idx2Bit(j));
      MarkApart(m, Idx2Bit(i), Idx2Bit(j));
    }
  }

  /** Marking and clearing bin i changes bin i's bit and no other. */
  lemma MarkClearExact(m: bv32, i: nat)
    requires i < 32
    ensures forall j: nat | j < 32 :: Marked(Mark(m, i), j) <==> i == j || Marked(m, j)
    ensures forall j: nat | j < 32 :: Marked(Clear(m, i), j) <==> i != j && Marked(m, j)
  {
    hide Marked, Mark, Clear;
    forall j: nat | j < 32
      ensures Marked(Mark(m, i), j) <==> i == j || Marked(m, j)
      ensures Marked(Clear(m, i), j) <==> i != j && Marked(m, j)
    {
      MarkClearBit(m, i, j);
    }
  }

  // ----- The least marked bin -----

  lemma BelowDoubleBits(b: bv32)
    requires And(b, Below(b)) == 0
    ensures And(b << 1, Below(b << 1)) == 0
  {}

  lemma {:induction false} BelowOwnBit(i: nat)
    ensures And(Idx2Bit(i), Below(Idx2Bit(i))) == 0
  {
    if i > 0 {
      BelowOwnBit(i - 1);
      BelowDoubleBits(Idx2Bit(i - 1));
    }
  }

  lemma BelowSplits(x: bv32, b: bv32)
    requires And(b, Below(b)) == 0 && b != 0
    ensures And(x, Below(b << 1)) == Or(And(x, Below(b)), And(x, b))
  {}

  lemma OrZero(a: bv32, b: bv32)
    ensures Or(a, b) == 0 <==> a == 0 && b == 0
  {}

  lemma BelowFirst(x: bv32)
    ensures And(x, Below(Idx2Bit(0))) == 0
  {}

  /** Below the next bit there is what is below bit i, and bit i itself. */
  lemma BelowStep(x: bv32, i: nat)
    requires i < 32
    ensures And(x, Below(Idx2Bit(i + 1))) == 0 <==> And(x, Below(Idx2Bit(i))) == 0 && !Marked(x, i)
  {
    BelowOwnBit(i);
    BitNonzero(i);
    var b := Idx2Bit(i);
    NextBit(i);
    hide And, Or, Below, Idx2Bit;
    BelowSplits(x, b);
    OrZero(And(x, Below(b)), And(x, b));
  }

  lemma NextBit(i: nat)
    ensures Idx2Bit(i + 1) == Idx2Bit(i) << 1
  {}

  lemma {:induction false} BelowMeans(x: bv32, i: nat)
    requires i <= 32
    ensures And(x, Below(Idx2Bit(i))) == 0 <==> forall j: nat | j < i :: !Marked(x, j)
  {
    if i == 0 {
      BelowFirst(x);
    } else {
      hide And, Below, Idx2Bit, Marked;
      BelowMeans(x, i - 1);
      BelowStep(x, i - 1);
      LastSplits(x, i - 1);
    }
  }

  lemma LastSplits(x: bv32, i: nat)
    ensures (forall j: nat | j < i + 1 :: !Marked(x, j)) <==> (forall j: nat | j < i :: !Marked(x, j)) && !Marked(x, i)
  {
    hide Marked;
  }

  lemma AllOnes(x: bv32)
    ensures And(x, Below(0)) == x
  {}

  /** A map is zero exactly when no bin is marked. */
  lemma ZeroMeansNoneMarked(m: bv32)
    ensures m == 0 <==> forall j: nat | j < 32 :: !Marked(m, j)
  {
    hide And, Below, Idx2Bit;
    BelowMeans(m, 32);
    BitValues();
    AllOnes(m);
  }

  lemma LeastBitOf(x: bv32, b: bv32)
    requires And(b, Below(b)) == 0 && And(x, Below(b)) == 0 && And(x, b) != 0
    ensures LeastBit(x) == b
  {}

  lemma Bit2IdxFrom0(i: nat)
    requires 0 <= i < 8
    ensures Bit2IdxWord(Idx2Bit(i)) as nat == i
  {
    BitValues();
    if {
      case i == 0 => assert Bit2IdxWord(0x1) == 0;
      case i == 1 => assert Bit2IdxWord(0x2) == 1;
      case i == 2 => assert Bit2IdxWord(0x4) == 2;
      case i == 3 => assert Bit2IdxWord(0x8) == 3;
      case i == 4 => assert Bit2IdxWord(0x10) == 4;
      case i == 5 => assert Bit2IdxWord(0x20) == 5;
      case i == 6 => assert Bit2IdxWord(0x40) == 6;
      case i == 7 => assert Bit2IdxWord(0x80) == 7;
    }
  }

  lemma Bit2IdxFrom8(i: nat)
    requires 8 <= i < 16
    ensures Bit2IdxWord(Idx2Bit(i)) as nat == i
  {
    BitValues();
    if {
      case i == 8 => assert Bit2IdxWord(0x100) == 8;
      case i == 9 => assert Bit2IdxWord(0x200) == 9;
      case i == 10 => assert Bit2IdxWord(0x400) == 10;
      case i == 11 => assert Bit2IdxWord(0x800) == 11;
      case i == 12 => assert Bit2IdxWord(0x1000) == 12;
      case i == 13 => assert Bit2IdxWord(0x2000) == 13;
      case i == 14 => assert Bit2IdxWord(0x4000) == 14;
      case i == 15 => assert Bit2IdxWord(0x8000) == 15;
    }
  }

  lemma Bit2IdxFrom16(i: nat)
    requires 16 <= i < 24
    ensures Bit2IdxWord(Idx2Bit(i)) as nat == i
  {
    BitValues();
    if {
      case i == 16 => assert Bit2IdxWord(0x10000) == 16;
      case i == 17 => assert Bit2IdxWord(0x20000) == 17;
      case i == 18 => assert Bit2IdxWord(0x40000) == 18;
      case i == 19 => assert Bit2IdxWord(0x80000) == 19;
      case i == 20 => assert Bit2IdxWord(0x100000) == 20;
      case i == 21 => assert Bit2IdxWord(0x200000) == 21;
      case i == 22 => assert Bit2IdxWord(0x400000) == 22;
      case i == 23 => assert Bit2IdxWord(0x800000) == 23;
    }
  }

  lemma Bit2IdxFrom24(i: nat)
    requires 24 <= i < 32
    ensures Bit2IdxWord(Idx2Bit(i)) as nat == i
  {
    BitValues();
    if {
      case i == 24 => assert Bit2IdxWord(0x1000000) == 24;
      case i == 25 => assert Bit2IdxWord(0x2000000) == 25;
      case i == 26 => assert Bit2IdxWord(0x4000000) == 26;
      case i == 27 => assert Bit2IdxWord(0x8000000) == 27;
      case i == 28 => assert Bit2IdxWord(0x10000000) == 28;
      case i == 29 => assert Bit2IdxWord(0x20000000) == 29;
      case i == 30 => assert Bit2IdxWord(0x40000000) == 30;
      case i == 31 => assert Bit2IdxWord(0x80000000) == 31;
    }
  }

  lemma Bit2IdxExact(i: nat)
    requires i < 32
    ensures Bit2Idx(Idx2Bit(i)) == i
  {
    hide Bit2IdxWord, Idx2Bit;
    if i < 8 { Bit2IdxFrom0(i); } else if i < 16 { Bit2IdxFrom8(i); } else if i < 24 { Bit2IdxFrom16(i); } else { Bit2IdxFrom24(i); }
  }

  /** least_bit followed by compute_bit2idx finds the lowest marked bin. */
  lemma LowestMarked(m: bv32) returns (i: nat)
    requires m != 0
    ensures i == Bit2Idx(LeastBit(m))
    ensures i < 32 && Marked(m, i) && forall j: nat | j < i :: !Marked(m, j)
  {
    hide And, Below, Idx2Bit, LeastBit, Bit2Idx;
    ZeroMeansNoneMarked(m);
    i := 0;
    while !Marked(m, i)
      invariant i < 32
      invariant exists j: nat | j < 32 :: Marked(m, j)
      invariant forall j: nat | j < i :: !Marked(m, j)
      decreases 32 - i
    {
      i := i + 1;
    }
    BelowOwnBit(i);
    BelowMeans(m, i);
    LeastBitOf(m, Idx2Bit(i));
    Bit2IdxExact(i);
  }

  // ----- Masks and shifts -----

  lemma AndAssoc(a: bv32, b: bv32, c: bv32)
    ensures And(And(a, b), c) == And(a, And(b, c))
  {}

  lemma AndOne(a: bv32, b: bv32)
    requires And(b, Below(b)) == 0
    ensures And(LeftBits(b), b) == 0 && And(LeftBits(b), b << 1) == b << 1
  {}

  lemma LeftBitsShrink(b: bv32, c: bv32)
    requires And(b, Below(b)) == 0 && And(LeftBits(b), c) == 0
    ensures And(LeftBits(b << 1), c) == 0
  {}

  lemma LeftBitsGrow(b: bv32, c: bv32)
    requires And(b, Below(b)) == 0 && And(LeftBits(b), c) == c
    ensures And(LeftBits(b), c << 1) == c << 1
  {}

  lemma {:induction false} LeftBitsOff(i: nat, j: nat)
    requires j <= i
    ensures And(LeftBits(Idx2Bit(i)), Idx2Bit(j)) == 0
    decreases i
  {
    BelowOwnBit(i);
    if j == i {
      AndOne(Idx2Bit(i), Idx2Bit(j));
    } else {
      BelowOwnBit(i - 1);
      LeftBitsOff(i - 1, j);
      LeftBitsShrink(Idx2Bit(i - 1), Idx2Bit(j));
    }
  }

  lemma {:induction false} LeftBitsOn(i: nat, j: nat)
    requires i < j
    ensures And(LeftBits(Idx2Bit(i)), Idx2Bit(j)) == Idx2Bit(j)
    decreases j
  {
    BelowOwnBit(i);
    if j == i + 1 {
      AndOne(Idx2Bit(i), Idx2Bit(j));
    } else {
      LeftBitsOn(i, j - 1);
      LeftBitsGrow(Idx2Bit(i), Idx2Bit(j - 1));
    }
  }

  /** The marked bins strictly above bin i. */
  lemma LeftBitsExact(m: bv32, i: nat)
    ensures forall j: nat | j < 32 :: Marked(And(LeftBits(Idx2Bit(i)), m), j) <==> i < j && Marked(m, j)
  {
    hide And, Idx2Bit, LeftBits;
    forall j: nat | j < 32
      ensures Marked(And(LeftBits(Idx2Bit(i)), m), j) <==> i < j && Marked(m, j)
    {
      var l, c := LeftBits(Idx2Bit(i)), Idx2Bit(j);
      AndAssoc(m, l, c);
      AndComm(m, l);
      AndZero(m);
      if i < j { LeftBitsOn(i, j); } else { LeftBitsOff(i, j); }
    }
  }

  lemma AndComm(a: bv32, b: bv32)
    ensures And(a, b) == And(b, a)
  {}

  lemma AndZero(a: bv32)
    ensures And(a, 0) == 0
  {}

  lemma ShiftBit(m: bv32, b: bv32)
    ensures And(m >> 1, b) == 0 <==> And(m, b << 1) == 0
  {}

  lemma ShiftMarked(m: bv32, k: nat)
    ensures Marked(m >> 1, k) <==> Marked(m, k + 1)
  {
    hide And;
    ShiftBit(m, Idx2Bit(k));
  }

  /** smallmap >> i brings bin i's bit to place 0. */
  lemma {:induction false} ShrExact(m: bv32, i: nat, j: nat)
    ensures Marked(Shr(m, i), j) <==> Marked(m, i + j)
    decreases i
  {
    hide Marked;
    if i > 0 {
      ShrExact(m >> 1, i - 1, j);
      ShiftMarked(m, i + j - 1);
    }
  }

  lemma LowBits(x: bv32)
    ensures And(x, 3) != 0 <==> Marked(x, 0) || Marked(x, 1)
    ensures And(Not(x), 1) == (if Marked(x, 0) then 0 else 1)
  {
    assert Idx2Bit(0) == 1 && Idx2Bit(1) == 2;
  }

  lemma ShiftBackBit(x: bv32, b: bv32)
    ensures And(x << 1, b << 1) == And(x, b) << 1
    ensures And(x << 1, 1) == 0
  {}

  lemma TopShift(x: bv32, b: bv32)
    requires b << 1 != 0 && And(b, Below(b)) == 0
    ensures And(x, b) << 1 == 0 <==> And(x, b) == 0
  {}

  lemma {:induction false} ShlExact(m: bv32, i: nat, j: nat)
    requires j < 32
    ensures Marked(Shl(m, i), j) <==> i <= j && Marked(m, j - i)
    decreases i
  {
    hide And, Below;
    if i > 0 {
      ShlExact(m << 1, i - 1, j);
      if i <= j {
        var b := Idx2Bit(j - i);
        assert Idx2Bit(j - i + 1) == b << 1;
        ShiftBackBit(m, b);
        BelowOwnBit(j - i);
        BitNonzero(j - i + 1);
        TopShift(m, b);
      } else if i - 1 <= j {
        ShiftBackBit(m, 1);
        assert j - (i - 1) == 0;
        assert Idx2Bit(0) == 1;
      }
    }
  }
}
