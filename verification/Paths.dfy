/** Positions in a tree bin and the sizes that belong under each. */
module Paths {
  import opened Products
  import opened Sizes
  import opened Layout

  function Depth(p: Path): nat { if p.Root? then 0 else 1 + Depth(p.up) }

  /** How many size bits are still undecided at p. */
  function Open(i: nat, p: Path): int { Width(i) - Depth(p) }

  /** The least size that belongs at or under p in bin i. */
  function Lo(i: nat, p: Path): nat {
    match p
    case Root => Base(i)
    case Down(u, b) => Lo(i, u) + if b && Open(i, u) >= 1 then Pow2(Open(i, u) - 1) else 0
  }

  function End(i: nat, p: Path): nat
    requires Open(i, p) >= 0
  {
    Lo(i, p) + Pow2(Open(i, p))
  }

  /** The bits of s below the bin's range agree with the path p. */
  predicate InRange(i: nat, p: Path, s: int) {
    Open(i, p) >= 0 && Lo(i, p) <= s < End(i, p)
  }

  /** q is p or a position below it. */
  predicate Under(q: Path, p: Path) { q == p || (q.Down? && Under(q.up, p)) }

  /** The halves of a range: which half s falls in is the next bit of the path. */
  lemma Halves(i: nat, p: Path)
    requires Open(i, p) >= 1
    ensures Open(i, Down(p, true)) == Open(i, Down(p, false)) == Open(i, p) - 1
    ensures Lo(i, Down(p, false)) == Lo(i, p) && End(i, Down(p, true)) == End(i, p)
    ensures End(i, Down(p, false)) == Lo(i, Down(p, true)) == Lo(i, p) + Pow2(Open(i, p) - 1)
    ensures Pow2(Open(i, p)) == 2 * Pow2(Open(i, p) - 1)
  {
    PowHalf(Open(i, p));
    hide Pow2, Width, Base;
  }

  lemma PowHalf(k: nat)
    requires k >= 1
    ensures Pow2(k) == 2 * Pow2(k - 1)
  {}

  lemma RangeUp(i: nat, q: Path, s: int)
    requires q.Down? && InRange(i, q, s)
    ensures InRange(i, q.up, s) && Open(i, q.up) >= 1
  {
    hide Lo, Pow2;
    Halves(i, q.up);
    if q.bit {} else {}
  }

  lemma {:induction false} RangeUnder(i: nat, q: Path, p: Path, s: int)
    requires Under(q, p) && InRange(i, q, s)
    ensures InRange(i, p, s)
  {
    hide Lo, Pow2, InRange;
    if q != p {
      RangeUp(i, q, s);
      RangeUnder(i, q.up, p, s);
    }
  }

  /** Below p, every position is below one of its two children. */
  lemma {:induction false} UnderChild(q: Path, p: Path) returns (b: bool)
    requires Under(q, p) && q != p
    ensures Under(q, Down(p, b))
  {
    if q.up == p {
      b := q.bit;
    } else {
      b := UnderChild(q.up, p);
    }
  }

  lemma {:induction false} UnderTrans(r: Path, q: Path, p: Path)
    requires Under(r, q) && Under(q, p)
    ensures Under(r, p)
  {
    if r != q {
      UnderTrans(r.up, q, p);
    }
  }

  /** A size belongs under at most one of two positions of equal depth: the trie has no choice. */
  lemma {:induction false} RangeUnique(i: nat, p: Path, q: Path, s: int)
    requires InRange(i, p, s) && InRange(i, q, s) && Depth(p) == Depth(q)
    ensures p == q
  {
    hide Lo, Pow2;
    if p.Down? {
      RangeUp(i, p, s);
      RangeUp(i, q, s);
      RangeUnique(i, p.up, q.up, s);
      Halves(i, p.up);
      if p.bit != q.bit {}
    }
  }

  /** Two positions under which the same size belongs lie on one path. */
  lemma {:induction false} Comparable(i: nat, p: Path, q: Path, s: int)
    requires InRange(i, p, s) && InRange(i, q, s)
    ensures if Depth(p) <= Depth(q) then Under(q, p) else Under(p, q)
    ensures Depth(p) == Depth(q) ==> p == q
    decreases Depth(p) + Depth(q)
  {
    hide Lo, Pow2, InRange;
    if Depth(p) == Depth(q) {
      RangeUnique(i, p, q, s);
    } else if Depth(p) < Depth(q) {
      RangeUp(i, q, s);
      Comparable(i, p, q.up, s);
    } else {
      RangeUp(i, p, s);
      Comparable(i, p.up, q, s);
    }
  }

  /** At a fully decided position only one size belongs. */
  lemma OpenBits(i: nat, p: Path, s: int, t: int)
    requires InRange(i, p, s) && InRange(i, p, t) && s != t
    ensures Open(i, p) >= 1
  {
    hide Lo;
    assert Pow2(0) == 1;
  }

  // ----- The sign-bit walk -----

  const SIGN: nat := 0x8000_0000_0000_0000

  /** k holds the undecided bits of s at p, left-justified in a size_t. */
  ghost predicate Justified(i: nat, p: Path, s: int, k: nat) {
    && InRange(i, p, s) && k < SIZE_T_LIMIT
    && k * Pow2(Open(i, p)) == (s - Lo(i, p)) * SIZE_T_LIMIT
  }

  function SignBit(k: nat): bool { k / SIGN % 2 == 1 }
  function Shl64(k: nat): nat { 2 * k % SIZE_T_LIMIT }

  lemma JustifiedStart(i: nat, s: nat)
    requires i < 32 && InBin(i, s) && s < SIZE_T_LIMIT
    ensures Justified(i, Root, s, SizeBits(i, s))
  {
    hide SizeBits, InBin, Pow2;
    BinRange(i, s);
    SizeBitsExact(i, s);
  }

  lemma SignArith(k: nat, h: nat, d: nat)
    requires h >= 1 && k < SIZE_T_LIMIT && k * (2 * h) == d * SIZE_T_LIMIT
    ensures SignBit(k) <==> d >= h
    ensures Shl64(k) * h == (if d >= h then d - h else d) * SIZE_T_LIMIT
  {
    assert SIZE_T_LIMIT == 2 * SIGN;
    assert k * h == d * SIGN;
    if k >= SIGN {
      MulLeq(SIGN, k, h);
      assert SIGN * h <= d * SIGN;
      assert Shl64(k) == 2 * k - SIZE_T_LIMIT;
      assert (2 * k - SIZE_T_LIMIT) * h == 2 * (k * h) - SIZE_T_LIMIT * h;
    } else {
      MulStep(k, SIGN, h);
      assert Shl64(k) == 2 * k;
      assert (2 * k) * h == 2 * (k * h);
    }
  }

  /** The sign bit names the child under which s belongs, and a shift justifies the next bit. */
  lemma JustifiedStep(i: nat, p: Path, s: int, k: nat)
    requires Justified(i, p, s, k) && Open(i, p) >= 1
    ensures Justified(i, Down(p, SignBit(k)), s, Shl64(k))
  {
    hide Lo, Pow2, SignBit, Shl64, Under;
    Halves(i, p);
    SignArith(k, Pow2(Open(i, p) - 1), s - Lo(i, p));
    if SignBit(k) {} else {}
  }
}
