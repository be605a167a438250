/** The address arithmetic of internal_memalign. */
module Align {
  import opened Products
  import opened Sizes
  import opened Words

  // ----- The alignment asked for -----

  /** What internal_memalign rounds an alignment above MALLOC_ALIGNMENT to. */
  function AlignTo(alignment: nat): nat { LeastPow2(if alignment < MIN_CHUNK_SIZE then MIN_CHUNK_SIZE else alignment) }

  /** The rounding loop: a power of two is kept, anything else is doubled up to from 16. */
  method RoundAlignment(alignment: nat) returns (a: nat)
    requires 8 < alignment <= SIZE_T_LIMIT / 2
    ensures a == AlignTo(alignment)
  {
    hide Pow2, BitAnd, LeastPow2;
    var al := if alignment < MIN_CHUNK_SIZE then MIN_CHUNK_SIZE else alignment;
    PowerTest(al);
    if BitAnd(al, al - 1) != 0 {
      a := 16;
      ghost var j := 4;
      Pow16(j);
      while a < al
        invariant a == Pow2(j) && 16 <= a < 2 * al
        decreases al - a
      {
        PowNext(j);
        a := a * 2 % SIZE_T_LIMIT;
        j := j + 1;
      }
      OnlyOne(al, j);
    } else {
      a := al;
      ghost var j: nat :| al == Pow2(j);
      OnlyOne(al, j);
    }
  }

  /** The k-th value the rounding loop takes, if it gets that far. */
  function Doubled(k: nat): nat { if k == 0 then 16 else Doubled(k - 1) * 2 % SIZE_T_LIMIT }

  lemma {:induction false} DoubledIs(k: nat)
    ensures Doubled(k) == if k < 60 then Pow2(k + 4) else 0
  {
    hide Pow2;
    if k == 0 {
      Pow16(k + 4);
    } else {
      DoubledIs(k - 1);
      var w := 64;
      PowLimit(w);
      PowNext(k + 3);
      if k < 60 { PowMonotone(k + 4, w - 1); }
    }
  }

  /** The loop ends for alignments up to 2^63 and for no others: past that it wraps to zero. */
  lemma RoundingEnds(alignment: nat)
    requires alignment > 0
    ensures (exists k: nat :: alignment <= Doubled(k)) <==> alignment <= SIZE_T_LIMIT / 2
  {
    var w := 64;
    PowLimit(w);
    DoubledIs(w - 5);
    forall k: nat ensures Doubled(k) <= SIZE_T_LIMIT / 2 {
      DoubledIs(k);
      if k < 60 { PowMonotone(k + 4, w - 1); }
    }
  }

  // ----- The aligned spot -----

  predicate Aligned(x: int, a: nat) { a > 0 && x % a == 0 }

  /** Where internal_memalign puts the aligned chunk: the chunk whose payload is the first
      aligned address not below x, or one alignment further on if that leaves a leader of less
      than MIN_CHUNK_SIZE. p and x are byte addresses, of a chunk and of its payload. */
  function AlignedSpot(p: nat, x: nat, a: nat): int
    requires 0 < a <= SIZE_T_LIMIT
  {
    var br := BitAnd(x + a - 1, SIZE_T_LIMIT - a) - 16;
    if br - p >= MIN_CHUNK_SIZE then br else br + a
  }

  /** The room asked for always suffices. */
  lemma SpotExact(p: nat, a: nat, j: nat)
    requires p % 8 == 0 && a == Pow2(j) && 32 <= a && j < 64 && p + 16 + a <= SIZE_T_LIMIT && !Aligned(p + 16, a)
    ensures a <= SIZE_T_LIMIT
    ensures var pos := AlignedSpot(p, p + 16, a);
      && Aligned(pos + 16, a) && pos % 8 == 0 && p + MIN_CHUNK_SIZE <= pos <= p + a + 24
  {
    hide Pow2, BitAnd, Aligned;
    var up := MaskUp(p + 16, a, j);
    EightDivides(j, a);
    MultipleOf(up, a);
    AlignedNext(up, a);
    SpotBounds(p, a, up);
  }

  /** No aligned payload address comes before the spot, but for one too near the front. */
  lemma SpotFirst(p: nat, a: nat, j: nat, y: nat)
    requires p % 8 == 0 && a == Pow2(j) && 32 <= a && j < 64 && p + 16 + a <= SIZE_T_LIMIT && !Aligned(p + 16, a)
    requires a <= SIZE_T_LIMIT && Aligned(y, a) && p + 16 <= y < AlignedSpot(p, p + 16, a) + 16
    ensures y < p + 16 + MIN_CHUNK_SIZE
  {
    hide Pow2, BitAnd, Aligned;
    var up := MaskUp(p + 16, a, j);
    if y < up { MultiplesApart(y, up, a); }
    if y > up { MultiplesApart(up, y, a); }
  }

  lemma MultiplesApart(x: nat, y: nat, a: nat)
    requires Aligned(x, a) && Aligned(y, a) && x < y
    ensures x + a <= y
  {
    var i, j := x / a, y / a;
    assert x == i * a && y == j * a;
    if i >= j { MulLeq(j, i, a); } else { MulStep(i, j, a); }
  }

  lemma SpotBounds(p: nat, a: nat, up: nat)
    requires p % 8 == 0 && 32 <= a && a % 8 == 0 && up % 8 == 0 && p + 16 < up < p + 16 + a
    ensures var br := up - 16;
      var pos := if br - p >= MIN_CHUNK_SIZE then br else br + a;
      pos % 8 == 0 && p + MIN_CHUNK_SIZE <= pos <= p + a + 24
  {}

  lemma AlignedNext(x: nat, a: nat)
    requires Aligned(x, a)
    ensures Aligned(x + a, a)
  {
    ModAdd(x, a);
  }

  lemma MaskUp(x: nat, a: nat, j: nat) returns (up: nat)
    requires a == Pow2(j) && j < 64 && x + a <= SIZE_T_LIMIT && !Aligned(x, a)
    ensures a <= SIZE_T_LIMIT && up == BitAnd(x + a - 1, SIZE_T_LIMIT - a)
    ensures Aligned(up, a) && x < up < x + a
  {
    var w := 64;
    PowLimit(w);
    PowMonotone(j, w);
    MaskRounds(w, x + a - 1, j);
    RoundUp(x, a);
    up := x + a - 1 - (x + a - 1) % a;
  }

  lemma EightDivides(j: nat, a: nat)
    requires a == Pow2(j) >= 32
    ensures a % 8 == 0
  {
    SmallPowers();
    if j < 5 { PowMonotone(j + 1, 5); }
    PowAdd(3, j - 3);
  }

  lemma RoundUp(x: nat, a: nat)
    requires a > 0 && x % a != 0
    ensures var up := x + a - 1 - (x + a - 1) % a; up % a == 0 && x < up < x + a
  {
    var k := x / a;
    var r := x % a;
    assert x == a * k + r;
    Quotient(x + a - 1, a, k + 1, r - 1);
    Quotient(a * (k + 1), a, k + 1, 0);
  }

  lemma MultipleOf(x: nat, a: nat)
    requires a % 8 == 0 && Aligned(x, a)
    ensures x % 8 == 0
  {
    assert x == a * (x / a);
    assert x == 8 * (a / 8 * (x / a));
  }
}
