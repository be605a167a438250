/** The range a free merges, and what becomes of dv, top and the blocks in use. */
module Freeing {
  import opened Sizes
  import opened Layout
  import opened Tags
  import opened Bins
  import opened SmallOps
  import opened TreeUnlink
  import opened Moves
  import opened States

  lemma RangeBounds(m: Memory, C: Chunks, end: int, S: seq<seq<int>>, Ts: seq<Trie>, lo: int, s: nat, k: Kind)
    requires Heap(m, C, end, S, Ts) && CanMerge(C, end, lo, s / 8, k) && k != Top
    ensures 0 <= lo && lo + s / 8 + 1 < |m| && s >= 32 && lo + s / 8 in C
    ensures AndNotPInuse(At(m, lo + s / 8 + 1)) == Head(C[lo + s / 8].(pin := false))
    ensures At(m, lo + s / 8 + 1) == Head(C[lo + s / 8])
  {
    assert ChunkOK(C, end, lo) && TagOK(m, C, lo) && TagOK(m, C, lo + s / 8) && ChunkOK(C, end, lo + s / 8);
    HeadFields(C[lo + s / 8]);
  }

  /** The blocks in use are those of C without x. */
  ghost predicate Freed(C: Chunks, D: Chunks, x: int) {
    && x in C && C[x].kind == InUse
    && (forall a | a in C && C[a].kind == InUse && a != x :: a in D && D[a].kind == InUse && D[a].n == C[a].n)
    && (forall a | a in D && D[a].kind == InUse :: a in C && C[a].kind == InUse && a != x)
  }

  /** The range freed with x, so far: x itself, and the free chunk lo before it if lo != x. */
  ghost predicate BackShape(C: Chunks, x: int, lo: int) {
    && x in C && C[x].kind == InUse && x != 0 && lo in C && x + C[x].n in C
    && (if lo == x then C[x].pin else lo + C[lo].n == x && Free(C[lo]) && !Binned(C[lo]) && C[lo].kind != Top)
  }

  /** The whole range: with the free chunk after x, if fw. */
  ghost predicate FreeShape(C: Chunks, x: int, lo: int, fw: bool) {
    && BackShape(C, x, lo)
    && if fw then Free(C[x + C[x].n]) && !Binned(C[x + C[x].n]) else C[x + C[x].n].kind == InUse
  }

  /** What the range becomes: top or dv when it holds top or dv. */
  ghost function ShapeKind(C: Chunks, x: int, lo: int, fw: bool): Kind
    requires FreeShape(C, x, lo, fw)
  {
    if fw && C[x + C[x].n].kind == Top then Top
    else if C[lo].kind == Dv || (fw && C[x + C[x].n].kind == Dv) then Dv
    else Loose
  }

  function ShapeSize(C: Chunks, x: int, lo: int, fw: bool): int
    requires x in C && (fw ==> x + C[x].n in C)
  {
    x - lo + C[x].n + if fw then C[x + C[x].n].n else 0
  }

  function ShapeSet(C: Chunks, x: int, lo: int, fw: bool): set<int>
    requires x in C
  {
    {lo, x} + if fw then {x + C[x].n} else {}
  }

  /** Such a range can be merged, into top exactly when it reaches top. */
  lemma ShapeMerges(C: Chunks, end: int, x: int, lo: int, fw: bool, k: Kind)
    requires Tiled(C, end) && FreeShape(C, x, lo, fw) && k in {Loose, Dv, Top}
    requires k == Top <==> fw && C[x + C[x].n].kind == Top
    ensures var n := ShapeSize(C, x, lo, fw);
      n > 0 && CanMerge(C, end, lo, n, k) && Mergeable(C, ShapeSet(C, x, lo, fw), x, lo, n)
    ensures fw && k != Top ==> !C[lo + ShapeSize(C, x, lo, fw)].pin
  {
    var n := ShapeSize(C, x, lo, fw);
    assert ChunkOK(C, end, x) && ChunkOK(C, end, lo) && ChunkOK(C, end, x + C[x].n);
    forall q | q in C && lo <= q < lo + n ensures q in ShapeSet(C, x, lo, fw) {
      ShapeHolds(C, end, x, lo, fw, q);
    }
  }

  lemma ShapeHolds(C: Chunks, end: int, x: int, lo: int, fw: bool, q: int)
    requires Tiled(C, end) && FreeShape(C, x, lo, fw) && q in C && lo <= q < lo + ShapeSize(C, x, lo, fw)
    ensures q in ShapeSet(C, x, lo, fw)
  {
    assert ChunkOK(C, end, q) && ChunkOK(C, end, x) && ChunkOK(C, end, lo);
    assert Apart(C, q, x) && Apart(C, q, lo) && Apart(C, q, x + C[x].n);
  }

  /** After the merge, the blocks in use are those of C without x, and every other chunk is
      what it was. */
  ghost predicate ShapeGone(C: Chunks, D: Chunks, lo: int, P: set<int>) {
    && (forall a | a in C && a !in P :: a in D && D[a].kind == C[a].kind && D[a].n == C[a].n)
    && (forall a | a in D && a != lo :: a in C && a !in P && D[a].kind == C[a].kind && D[a].n == C[a].n)
  }

  lemma ShapeIsGone(C: Chunks, end: int, x: int, lo: int, fw: bool, n: nat, k: Kind)
    requires Tiled(C, end) && FreeShape(C, x, lo, fw) && n == ShapeSize(C, x, lo, fw)
    ensures ShapeGone(C, Merge(C, lo, n, k), lo, ShapeSet(C, x, lo, fw))
  {
    assert ChunkOK(C, end, x) && ChunkOK(C, end, lo) && ChunkOK(C, end, x + C[x].n);
    forall q | q in C ensures q in ShapeSet(C, x, lo, fw) <==> lo <= q < lo + n {
      if lo <= q < lo + n { ShapeHolds(C, end, x, lo, fw, q); }
    }
    hide Tiled, FreeShape, ShapeSet;
  }

  lemma ShapeFreed(C: Chunks, end: int, x: int, lo: int, fw: bool, n: nat, k: Kind)
    requires Tiled(C, end) && FreeShape(C, x, lo, fw) && k in {Loose, Dv, Top} && n == ShapeSize(C, x, lo, fw)
    ensures ShapeGone(C, Merge(C, lo, n, k), lo, ShapeSet(C, x, lo, fw))
    ensures Freed(C, Merge(C, lo, n, k), x)
  {
    assert ChunkOK(C, end, x) && ChunkOK(C, end, lo);
    ShapeIsGone(C, end, x, lo, fw, n, k);
    hide Tiled;
  }

  /** dv, top and the loose chunks after the merge. */
  lemma ShapeRegisters(C: Chunks, end: int, x: int, lo: int, fw: bool, n: nat, k: Kind, dv: int, dvsize: int, top: int, topsize: int)
    requires Tiled(C, end) && FreeShape(C, x, lo, fw) && n == ShapeSize(C, x, lo, fw) && k == ShapeKind(C, x, lo, fw)
    requires DvOK(C, dv, dvsize) && TopOK(C, top, topsize) && forall a | a in C && C[a].kind == Loose :: a in ShapeSet(C, x, lo, fw)
    ensures var D := Merge(C, lo, n, k);
      && lo in D && D[lo].kind == k && D[lo].n == n && (if k == Loose then OnlyLoose(D, lo) else Settled(D))
      && (if k == Dv then DvOK(D, lo, 8 * n) else if C[lo].kind == Dv then DvOK(D, 0, 0) else DvOK(D, dv, dvsize))
      && (if k == Top then TopOK(D, lo, 8 * n) else TopOK(D, top, topsize))
  {
    assert ChunkOK(C, end, x) && ChunkOK(C, end, lo);
    ShapeIsGone(C, end, x, lo, fw, n, k);
    TopUnique(C, end, x + C[x].n, top);
    hide Tiled;
  }

  lemma FreeReads(m: Memory, C: Chunks, end: int, S: seq<seq<int>>, Ts: seq<Trie>, p: int)
    requires Heap(m, C, end, S, Ts) && p in C && C[p].kind == InUse && p != 0
    ensures var next := p + C[p].n;
      && 0 < p && next in C && next + 1 < |m|
      && ChunkSize(At(m, p + 1)) == 8 * C[p].n && (PInuse(At(m, p + 1)) <==> C[p].pin)
      && (CInuse(At(m, next + 1)) <==> C[next].kind == InUse) && PInuse(At(m, next + 1))
      && ChunkSize(At(m, next + 1)) == 8 * C[next].n
    ensures C[p].pin ==> BackShape(C, p, p)
  {
    assert ChunkOK(C, end, p) && TagOK(m, C, p) && TagOK(m, C, p + C[p].n);
    HeadFields(C[p]);
    HeadFields(C[p + C[p].n]);
  }

  /** The prev_foot field of p leads to the free chunk before it. */
  lemma PrevReads(m: Memory, C: Chunks, end: int, S: seq<seq<int>>, Ts: seq<Trie>, p: int, dv: int, dvsize: int) returns (r: int)
    requires Heap(m, C, end, S, Ts) && p in C && C[p].kind == InUse && p > 0 && !C[p].pin
    requires DvOK(C, dv, dvsize) && Settled(C)
    ensures r in C && 0 < r < p && r + C[r].n == p && At(m, p) == 8 * C[r].n
    ensures C[r].kind != InUse && C[r].kind != Top && C[r].kind != Loose && (r == dv <==> C[r].kind == Dv)
  {
    r := FindPrev(C, end, 0, p);
    assert ChunkOK(C, end, r) && TagOK(m, C, r);
  }

  lemma BackUnlinked(C: Chunks, D: Chunks, x: int, lo: int, dv: int, dvsize: int)
    requires Unbinned(C, D, lo) && Settled(C) && lo + C[lo].n == x && x in C && C[x].kind == InUse && x != 0 && x + C[x].n in C
    requires C[x].n > 0 && C[lo].n > 0 && DvOK(D, dv, dvsize)
    ensures BackShape(D, x, lo) && OnlyLoose(D, lo) && D[x] == C[x]
    ensures D[x + C[x].n].kind == InUse <==> C[x + C[x].n].kind == InUse
  {}

  /** An unlink before the merge, and an insertion after it, hide nothing from the caller. */
  lemma FreedAfterUnlink(C: Chunks, D: Chunks, E: Chunks, y: int, x: int)
    requires Unbinned(C, D, y) && Binned(C[y]) && Freed(D, E, x)
    ensures Freed(C, E, x)
  {}

  lemma FreedRekind(C: Chunks, D: Chunks, x: int, p: int, k: Kind)
    requires Freed(C, D, x) && p in D && D[p].kind == Loose && k != InUse && k != Loose && OnlyLoose(D, p)
    ensures Freed(C, Rekind(D, p, k), x) && Settled(Rekind(D, p, k))
  {}

  lemma LiveButAfterUnlink(m: Memory, u: Memory, w: Memory, C: Chunks, D: Chunks, y: int, x: int)
    requires LiveKept(m, u, C) && Unbinned(C, D, y) && Binned(C[y]) && LiveKeptBut(u, w, D, x)
    ensures LiveKeptBut(m, w, C, x)
  {
    forall q | q in C && q != 0 && q != x && C[q].kind == InUse ensures BodyKept(m, w, C, q) {
      assert BodyKept(m, u, C, q) && BodyKept(u, w, D, q);
    }
  }

  lemma LiveButBefore(m: Memory, u: Memory, w: Memory, C: Chunks, D: Chunks, x: int)
    requires LiveKeptBut(m, u, C, x) && Freed(C, D, x) && LiveKept(u, w, D)
    ensures LiveKeptBut(m, w, C, x)
  {
    forall q | q in C && q != 0 && q != x && C[q].kind == InUse ensures BodyKept(m, w, C, q) {
      assert BodyKept(m, u, C, q) && BodyKept(u, w, D, q);
    }
  }

  /** A chunk and its size stay below the limit of size_t. */
  lemma ChunkBelow(m: Memory, C: Chunks, end: int, S: seq<seq<int>>, Ts: seq<Trie>, p: int)
    requires Heap(m, C, end, S, Ts) && p in C && 8 * end < SIZE_T_LIMIT
    ensures 8 * C[p].n < SIZE_T_LIMIT
  {
    assert ChunkOK(C, end, p);
  }

  lemma DvFree(m: Memory, C: Chunks, end: int, S: seq<seq<int>>, Ts: seq<Trie>, dv: int, dvsize: int)
    requires Heap(m, C, end, S, Ts) && DvOK(C, dv, dvsize) && dv in C && C[dv].kind != InUse
    ensures C[dv].kind == Dv && dvsize == 8 * C[dv].n
  {}

  lemma NextUnlinked(C: Chunks, D: Chunks, x: int, lo: int, next: int)
    requires BackShape(C, x, lo) && OnlyLoose(C, lo) && next == x + C[x].n && Unbinned(C, D, next) && Binned(C[next])
    ensures FreeShape(D, x, lo, true) && D[x] == C[x] && D[lo] == C[lo] && D[next] == C[next].(kind := Loose)
    ensures forall a | a in D && D[a].kind == Loose :: a in ShapeSet(D, x, lo, true)
  {}

  lemma DvIs(C: Chunks, lo: int, dv: int, dvsize: int)
    requires lo in C && lo != 0 && DvOK(C, dv, dvsize)
    ensures lo == dv <==> C[lo].kind == Dv
  {}

  /** What a free chunk after x can be. */
  lemma NextKind(m: Memory, C: Chunks, end: int, S: seq<seq<int>>, Ts: seq<Trie>, x: int, lo: int,
                 dv: int, dvsize: int, top: int, topsize: int)
    requires Heap(m, C, end, S, Ts) && BackShape(C, x, lo) && OnlyLoose(C, lo) && DvOK(C, dv, dvsize) && TopOK(C, top, topsize)
    ensures var next := x + C[x].n;
      C[next].kind == InUse || (C[next].kind == Top && next == top) || (C[next].kind == Dv && next == dv)
      || (Binned(C[next]) && next != top && next != dv)
  {
    assert ChunkOK(C, end, x) && ChunkOK(C, end, lo);
    TopUnique(C, end, x + C[x].n, top);
  }

  lemma SettledShape(C: Chunks, p: int)
    requires Settled(C)
    ensures OnlyLoose(C, p)
  {}
}
