/** Why one path through one tree finds the best fitting tree chunk. */
module Search {
  import opened Sizes
  import opened Layout
  import opened Rings
  import opened Paths
  import opened Bins
  import opened SmallOps
  import opened TreeOps

  /** Position q cannot improve on a fit that leaves rsize bytes over. */
  predicate Beaten(C: Chunks, T: Trie, nb: nat, rsize: nat, q: Path) {
    SizeAt(C, T, q) < nb || SizeAt(C, T, q) - nb >= rsize
  }

  ghost predicate AllBeaten(C: Chunks, T: Trie, nb: nat, rsize: nat) {
    forall q {:trigger Beaten(C, T, nb, rsize, q)} | q in T :: Beaten(C, T, nb, rsize, q)
  }

  /** The remainder after node p has been looked at. */
  function Improve(C: Chunks, T: Trie, nb: nat, rsize: nat, p: Path): nat {
    var s := SizeAt(C, T, p);
    if nb <= s && s - nb < rsize then s - nb else rsize
  }

  // ----- Walking down by leftmost children -----

  predicate Covered(C: Chunks, i: nat, T: Trie, nb: nat, rsize: nat, p: Path, q: Path)
    requires Open(i, p) >= 0
  {
    Beaten(C, T, nb, rsize, q) || Under(q, p) || SizeAt(C, T, q) >= End(i, p)
  }

  /** Every chunk at or below p is large enough. */
  ghost predicate AllFit(C: Chunks, T: Trie, nb: nat, p: Path) {
    forall q {:trigger Under(q, p)} | q in T && Under(q, p) :: SizeAt(C, T, q) >= nb
  }

  /** Everything not yet beaten is at or below p, or larger than anything there. */
  ghost predicate WalkCovers(C: Chunks, i: nat, T: Trie, nb: nat, rsize: nat, p: Path) {
    && Open(i, p) >= 0 && (rsize == 0 || AllFit(C, T, nb, p))
    && forall q {:trigger Covered(C, i, T, nb, rsize, p, q)} | q in T :: Covered(C, i, T, nb, rsize, p, q)
  }

  /** leftmost_child, as a position. */
  function LeftmostChild(T: Trie, p: Path): Path {
    if Down(p, false) in T then Down(p, false) else Down(p, true)
  }

  lemma PlacedAt(m: Memory, C: Chunks, i: nat, T: Trie, p: Path)
    requires TreeOK(m, C, i, T) && p in T
    ensures T[p] != [] && Open(i, p) >= 0 && Lo(i, p) <= SizeAt(C, T, p) < End(i, p) && InRange(i, p, SizeAt(C, T, p))
    ensures InBin(i, SizeAt(C, T, p)) && SizeAt(C, T, p) < SIZE_T_LIMIT
  {
    TreeNode(m, C, i, T, p);
  }

  /** A position below p lies below a child of p that is itself occupied. */
  lemma {:induction false} ChildOccupied(m: Memory, C: Chunks, i: nat, T: Trie, q: Path, p: Path) returns (b: bool)
    requires TreeOK(m, C, i, T) && q in T && Under(q, p) && q != p
    ensures Down(p, b) in T && Under(q, Down(p, b))
    decreases q
  {
    hide TreeOK;
    if q.up == p {
      b := q.bit;
    } else {
      assert q.up in T by { TreeUp(m, C, i, T, q); }
      b := ChildOccupied(m, C, i, T, q.up, p);
    }
  }

  lemma TreeUp(m: Memory, C: Chunks, i: nat, T: Trie, q: Path)
    requires TreeOK(m, C, i, T) && q in T && q.Down?
    ensures q.up in T
  {
    TreeNode(m, C, i, T, q);
  }

  lemma UnderSize(m: Memory, C: Chunks, i: nat, T: Trie, q: Path, p: Path)
    requires TreeOK(m, C, i, T) && q in T && Under(q, p)
    ensures Open(i, p) >= 0 && Lo(i, p) <= SizeAt(C, T, q) < End(i, p)
  {
    hide TreeOK, Lo;
    PlacedAt(m, C, i, T, q);
    RangeUnder(i, q, p, SizeAt(C, T, q));
  }

  lemma WalkStepAt(m: Memory, C: Chunks, i: nat, T: Trie, nb: nat, rsize: nat, p: Path, q: Path)
    requires TreeOK(m, C, i, T) && p in T && q in T
    requires Open(i, p) >= 0 && (rsize == 0 || SizeAt(C, T, p) >= nb) && Covered(C, i, T, nb, rsize, p, q)
    ensures var c, rs := LeftmostChild(T, p), Improve(C, T, nb, rsize, p);
      if c in T then Open(i, c) >= 0 && Covered(C, i, T, nb, rs, c, q) else Beaten(C, T, nb, rs, q)
  {
    hide TreeOK, Lo, Pow2, SizeAt;
    PlacedAt(m, C, i, T, p);
    var c := LeftmostChild(T, p);
    if c in T {
      PlacedAt(m, C, i, T, c);
      Halves(i, p);
    }
    if Under(q, p) && q != p {
      var b := ChildOccupied(m, C, i, T, q, p);
      if c != Down(p, b) {
        UnderSize(m, C, i, T, q, Down(p, true));
      }
    }
  }

  /** One step of the walk; at a leaf everything is beaten. */
  lemma WalkStep(m: Memory, C: Chunks, i: nat, T: Trie, nb: nat, rsize: nat, p: Path)
    requires TreeOK(m, C, i, T) && p in T && WalkCovers(C, i, T, nb, rsize, p)
    ensures var c, rs := LeftmostChild(T, p), Improve(C, T, nb, rsize, p);
      if c in T then WalkCovers(C, i, T, nb, rs, c) else AllBeaten(C, T, nb, rs)
  {
    hide TreeOK, Lo, Pow2, Covered, Beaten, SizeAt;
    var c, rs := LeftmostChild(T, p), Improve(C, T, nb, rsize, p);
    PlacedAt(m, C, i, T, p);
    assert Under(p, p);
    if c in T {
      PlacedAt(m, C, i, T, c);
      AllFitBelow(C, T, nb, p, c);
      forall q | q in T ensures Covered(C, i, T, nb, rs, c, q) {
        assert Covered(C, i, T, nb, rsize, p, q);
        WalkStepAt(m, C, i, T, nb, rsize, p, q);
      }
    } else {
      forall q | q in T ensures Beaten(C, T, nb, rs, q) {
        assert Covered(C, i, T, nb, rsize, p, q);
        WalkStepAt(m, C, i, T, nb, rsize, p, q);
      }
    }
  }

  lemma AllFitBelow(C: Chunks, T: Trie, nb: nat, p: Path, c: Path)
    requires c.Down? && c.up == p
    ensures AllFit(C, T, nb, p) ==> AllFit(C, T, nb, c)
  {
    forall q | q in T && Under(q, c) ensures Under(q, p) {
      UnderTrans(q, c, p);
    }
  }

  lemma WalkStart(m: Memory, C: Chunks, i: nat, T: Trie, nb: nat, rsize: nat)
    requires TreeOK(m, C, i, T) && Root in T && forall q | q in T :: SizeAt(C, T, q) >= nb
    ensures WalkCovers(C, i, T, nb, rsize, Root)
  {
    hide TreeOK;
    PlacedAt(m, C, i, T, Root);
    forall q ensures Under(q, Root) {
      AllUnderRoot(q);
    }
  }

  lemma {:induction false} AllUnderRoot(q: Path)
    ensures Under(q, Root)
  {
    if q.Down? { AllUnderRoot(q.up); }
  }

  // ----- Walking down the bits of the request -----

  /** As WalkCovers, with one more place to look: the deepest untaken right subtree, at r. */
  predicate PathCovered(C: Chunks, i: nat, T: Trie, nb: nat, rsize: nat, p: Path, some: bool, r: Path, q: Path)
    requires some ==> Open(i, r) >= 0
  {
    || Beaten(C, T, nb, rsize, q) || Under(q, p)
    || (some && (Under(q, r) || SizeAt(C, T, q) >= End(i, r)))
  }

  ghost predicate PathCovers(C: Chunks, i: nat, T: Trie, nb: nat, rsize: nat, p: Path, some: bool, r: Path) {
    && InRange(i, p, nb)
    && (some ==> r in T && Open(i, r) >= 0 && Lo(i, r) >= End(i, p))
    && forall q {:trigger PathCovered(C, i, T, nb, rsize, p, some, r, q)} | q in T ::
         PathCovered(C, i, T, nb, rsize, p, some, r, q)
  }

  lemma PathStart(m: Memory, C: Chunks, i: nat, T: Trie, nb: nat, rsize: nat)
    requires i < 32 && InBin(i, nb) && nb < SIZE_T_LIMIT
    ensures PathCovers(C, i, T, nb, rsize, Root, false, Root)
  {
    hide InBin;
    BinRange(i, nb);
    forall q ensures Under(q, Root) {
      AllUnderRoot(q);
    }
  }

  /** The new deepest untaken right subtree after branching at p on bit b. */
  predicate TakesRight(T: Trie, p: Path, b: bool) { !b && Down(p, true) in T }

  lemma PathStepAt(m: Memory, C: Chunks, i: nat, T: Trie, nb: nat, rsize: nat, p: Path, some: bool, r: Path, b: bool, q: Path)
    requires TreeOK(m, C, i, T) && p in T && q in T && Open(i, p) >= 1
    requires InRange(i, Down(p, b), nb) && (some ==> r in T && Open(i, r) >= 0 && Lo(i, r) >= End(i, p))
    requires PathCovered(C, i, T, nb, rsize, p, some, r, q)
    ensures TakesRight(T, p, b) ==> Open(i, Down(p, true)) >= 0
    ensures PathCovered(C, i, T, nb, Improve(C, T, nb, rsize, p), Down(p, b),
                        some || TakesRight(T, p, b), if TakesRight(T, p, b) then Down(p, true) else r, q)
  {
    hide TreeOK, Lo, Pow2, SizeAt;
    Halves(i, p);
    if Under(q, p) && q != p {
      var c := ChildOccupied(m, C, i, T, q, p);
      if c != b {
        UnderSize(m, C, i, T, q, Down(p, c));
      }
    } else if some && TakesRight(T, p, b) && Under(q, r) {
      UnderSize(m, C, i, T, q, r);
    } else if some && TakesRight(T, p, b) {
      PlacedAt(m, C, i, T, r);
    }
  }

  lemma PathStep(m: Memory, C: Chunks, i: nat, T: Trie, nb: nat, rsize: nat, p: Path, some: bool, r: Path, b: bool)
    requires TreeOK(m, C, i, T) && p in T && PathCovers(C, i, T, nb, rsize, p, some, r)
    requires Open(i, p) >= 1 && InRange(i, Down(p, b), nb)
    ensures PathCovers(C, i, T, nb, Improve(C, T, nb, rsize, p), Down(p, b),
                       some || TakesRight(T, p, b), if TakesRight(T, p, b) then Down(p, true) else r)
  {
    hide TreeOK, Lo, Pow2, PathCovered, Beaten;
    Halves(i, p);
    forall q | q in T
      ensures PathCovered(C, i, T, nb, Improve(C, T, nb, rsize, p), Down(p, b),
                          some || TakesRight(T, p, b), if TakesRight(T, p, b) then Down(p, true) else r, q)
    {
      assert PathCovered(C, i, T, nb, rsize, p, some, r, q);
      PathStepAt(m, C, i, T, nb, rsize, p, some, r, b, q);
    }
  }

  /** The path has run out: what is left is the untaken right subtree, or nothing. */
  lemma PathEnd(m: Memory, C: Chunks, i: nat, T: Trie, nb: nat, rsize: nat, p: Path, some: bool, r: Path)
    requires TreeOK(m, C, i, T) && p !in T && PathCovers(C, i, T, nb, rsize, p, some, r)
    ensures if some then WalkCovers(C, i, T, nb, rsize, r) else AllBeaten(C, T, nb, rsize)
  {
    hide TreeOK, Lo, Pow2, SizeAt;
    forall q | q in T ensures !Under(q, p) {
      NotUnder(m, C, i, T, q, p);
    }
    forall q | some && q in T && Under(q, r) ensures SizeAt(C, T, q) >= nb {
      UnderSize(m, C, i, T, q, r);
    }
    forall q | q in T ensures some ==> Covered(C, i, T, nb, rsize, r, q) {
      assert PathCovered(C, i, T, nb, rsize, p, some, r, q);
    }
    forall q | q in T && !some ensures Beaten(C, T, nb, rsize, q) {
      assert PathCovered(C, i, T, nb, rsize, p, some, r, q);
    }
  }

  lemma {:induction false} NotUnder(m: Memory, C: Chunks, i: nat, T: Trie, q: Path, p: Path)
    requires TreeOK(m, C, i, T) && q in T && p !in T
    ensures !Under(q, p)
    decreases q
  {
    hide TreeOK;
    if q.Down? {
      TreeUp(m, C, i, T, q);
      NotUnder(m, C, i, T, q.up, p);
    }
  }

  /** An exact fit beats everything. */
  lemma ExactFit(C: Chunks, i: nat, T: Trie, nb: nat, p: Path)
    requires Open(i, p) >= 0
    ensures WalkCovers(C, i, T, nb, 0, p) && AllBeaten(C, T, nb, 0)
  {}

  // ----- Over all tree bins -----

  ghost predicate BestTreeFit(C: Chunks, nb: nat, rsize: nat) {
    forall a | a in C && C[a].kind.Large? :: 8 * C[a].n < nb || 8 * C[a].n - nb >= rsize
  }

  lemma LargeAt(m: Memory, C: Chunks, end: int, Ts: seq<Trie>, a: int) returns (j: nat, q: Path)
    requires Tiled(C, end) && TreeBinsOK(m, C, Ts) && a in C && C[a].kind.Large?
    ensures j < 32 && j == TreeIndex(8 * C[a].n) && InBin(j, 8 * C[a].n)
    ensures TreeOK(m, C, j, Ts[j]) && q in Ts[j] && SizeAt(C, Ts[j], q) == 8 * C[a].n
  {
    assert ChunkOK(C, end, a) && InTreeBin(C, Ts, a);
    TreeIndexBrackets(8 * C[a].n);
    hide TreeIndex, InBin, InRange;
    j, q := TreeIndex(8 * C[a].n), C[a].kind.path;
    assert TreeOK(m, C, j, Ts[j]);
    TreeNode(m, C, j, Ts[j], q);
    var k :| 0 <= k < |Ts[j][q]| && Ts[j][q][k] == a;
    assert LargeMember(C, q, SizeAt(C, Ts[j], q), Ts[j][q][k]);
  }

  /** Tree bin i is settled; bins below are too small; bins above are empty or hold larger chunks. */
  lemma BestOfBin(m: Memory, C: Chunks, end: int, Ts: seq<Trie>, i: nat, nb: nat, rsize: nat)
    requires Tiled(C, end) && TreeBinsOK(m, C, Ts) && i < 32 && AllBeaten(C, Ts[i], nb, rsize)
    requires forall j, q | 0 <= j < i && q in Ts[j] :: SizeAt(C, Ts[j], q) < nb
    requires InBin(i, nb + rsize) || forall j | i < j < 32 :: Ts[j] == map[]
    ensures BestTreeFit(C, nb, rsize)
  {
    hide InBin, SizeAt, TreeOK, Tiled;
    forall a | a in C && C[a].kind.Large? ensures 8 * C[a].n < nb || 8 * C[a].n - nb >= rsize {
      var j, q := LargeAt(m, C, end, Ts, a);
      if j == i {
        assert Beaten(C, Ts[i], nb, rsize, q);
      } else if j > i && 8 * C[a].n < nb + rsize {
        BinsOrdered(j, 8 * C[a].n, i, nb + rsize);
      }
    }
  }

  /** What a walk knows once it has looked at the node of p: go on below, or all is beaten. */
  ghost predicate WalkPast(C: Chunks, i: nat, T: Trie, nb: nat, rsize: nat, p: Path) {
    var c := LeftmostChild(T, p);
    if c in T then WalkCovers(C, i, T, nb, rsize, c) else AllBeaten(C, T, nb, rsize)
  }

  /** v is a tree node that leaves rsize bytes over. */
  ghost predicate Candidate(C: Chunks, T: Trie, nb: nat, rsize: nat, v: int, p: Path) {
    p in T && v == NodeAt(T, p) && SizeAt(C, T, p) == nb + rsize
  }

  lemma CandidateChunk(m: Memory, C: Chunks, i: nat, T: Trie, nb: nat, rsize: nat, v: int, p: Path)
    requires TreeOK(m, C, i, T) && Candidate(C, T, nb, rsize, v, p)
    ensures v in C && C[v].kind == Large(p) && 8 * C[v].n == nb + rsize < SIZE_T_LIMIT && InBin(i, nb + rsize)
  {
    hide InBin, InRange;
    TreeNode(m, C, i, T, p);
    assert LargeMember(C, p, SizeAt(C, T, p), T[p][0]);
  }

  /** Below the first marked tree bin there are no tree chunks. */
  lemma FirstBin(Ts: seq<Trie>, m: Memory, C: Chunks, i: nat)
    requires |Ts| == 32 && i < 32 && TreeBinsOK(m, C, Ts) && forall j: nat | j < i :: Root !in Ts[j]
    ensures forall j | 0 <= j < i :: Ts[j] == map[]
  {
    forall j | 0 <= j < i ensures Ts[j] == map[] {
      assert TreeOK(m, C, j, Ts[j]);
      EmptyOrRooted(m, C, j, Ts[j]);
    }
  }

  lemma EmptyOrRooted(m: Memory, C: Chunks, i: nat, T: Trie)
    requires TreeOK(m, C, i, T)
    ensures T == map[] || Root in T
  {
    if T != map[] {
      var p :| p in T;
      RootIn(m, C, i, T, p);
    }
  }

  lemma {:induction false} RootIn(m: Memory, C: Chunks, i: nat, T: Trie, p: Path)
    requires TreeOK(m, C, i, T) && p in T
    ensures Root in T
    decreases p
  {
    if p != Root {
      TreePlaced(m, C, i, T, p);
      RootIn(m, C, i, T, p.up);
    }
  }

  /** For a small request every tree chunk fits, so the smallest of the first bin is best. */
  lemma SmallestIsBest(m: Memory, C: Chunks, end: int, Ts: seq<Trie>, i: nat, nb: nat, rsize: nat, v: int, p: Path)
    requires Tiled(C, end) && TreeBinsOK(m, C, Ts) && i < 32 && AllBeaten(C, Ts[i], nb, rsize)
    requires forall j: nat | j < i :: Root !in Ts[j]
    requires Candidate(C, Ts[i], nb, rsize, v, p)
    ensures BestTreeFit(C, nb, rsize) && v in C && C[v].kind.Large? && 8 * C[v].n == nb + rsize < SIZE_T_LIMIT
  {
    hide InBin, TreeOK, SizeAt, Candidate, Tiled;
    FirstBin(Ts, m, C, i);
    assert TreeOK(m, C, i, Ts[i]);
    CandidateChunk(m, C, i, Ts[i], nb, rsize, v, p);
    BestOfBin(m, C, end, Ts, i, nb, rsize);
  }

  lemma WalkDone(C: Chunks, i: nat, T: Trie, nb: nat, rsize: nat, p: Path)
    requires WalkPast(C, i, T, nb, rsize, p) && LeftmostChild(T, p) !in T
    ensures AllBeaten(C, T, nb, rsize)
  {}

  lemma BinAtLeast(i: nat)
    requires i < 32
    ensures MinSize(i) >= MIN_LARGE_SIZE
  {
    SmallPowers();
    PowMonotone(8, i / 2 + 8);
  }

  /** Every chunk of a tree bin exceeds a small request. */
  lemma AllExceed(m: Memory, C: Chunks, i: nat, T: Trie, nb: nat)
    requires TreeOK(m, C, i, T) && i < 32 && nb < MIN_LARGE_SIZE
    ensures forall q | q in T :: SizeAt(C, T, q) > nb
  {
    hide TreeOK, MinSize;
    BinAtLeast(i);
    forall q | q in T ensures SizeAt(C, T, q) > nb {
      PlacedAt(m, C, i, T, q);
    }
  }

  // ----- The state of tmalloc_large's search -----

  /** a - b on a size_t. */
  function Sub64(a: nat, b: nat): nat { (a - b) % SIZE_T_LIMIT }

  lemma Sub64Fit(s: nat, nb: nat, rsize: nat)
    requires s < SIZE_T_LIMIT && 0 < nb < SIZE_T_LIMIT && rsize <= SIZE_T_LIMIT - nb
    ensures Sub64(s, nb) < rsize <==> nb <= s && s - nb < rsize
    ensures nb <= s ==> Sub64(s, nb) == s - nb
  {
    if s < nb {
      ModAdd(s + SIZE_T_LIMIT - nb, SIZE_T_LIMIT);
      assert Sub64(s, nb) == s - nb + SIZE_T_LIMIT;
    }
  }

  /** The best node so far, or none and the remainder still at its initial -nb. */
  ghost predicate BestSoFar(C: Chunks, T: Trie, nb: nat, rsize: nat, v: int, p: Path) {
    if v == 0 then rsize == SIZE_T_LIMIT - nb else Candidate(C, T, nb, rsize, v, p)
  }

  /** Standing at the node t of position p on the bit path of nb, with rst the deepest untaken
      right subtree, at position r. */
  ghost predicate OnPath(C: Chunks, i: nat, T: Trie, nb: nat, rsize: nat, p: Path, k: nat, rst: int, r: Path) {
    && 0 < rsize <= SIZE_T_LIMIT - nb && p in T && Justified(i, p, nb, k)
    && rst == (if rst != 0 then NodeAt(T, r) else 0)
    && PathCovers(C, i, T, nb, rsize, p, rst != 0, r)
  }

  /** The search goes on with the subtree at p, or nothing in the tree is left to look at. */
  ghost predicate GoesOn(C: Chunks, i: nat, T: Trie, nb: nat, rsize: nat, t: int, p: Path) {
    if t == 0 then AllBeaten(C, T, nb, rsize)
    else p in T && t == NodeAt(T, p) && WalkCovers(C, i, T, nb, rsize, p)
  }

  lemma OnPathStart(m: Memory, C: Chunks, i: nat, T: Trie, nb: nat)
    requires TreeOK(m, C, i, T) && Root in T && i < 32 && InBin(i, nb) && 0 < nb < SIZE_T_LIMIT
    ensures OnPath(C, i, T, nb, SIZE_T_LIMIT - nb, Root, SizeBits(i, nb), 0, Root)
    ensures BestSoFar(C, T, nb, SIZE_T_LIMIT - nb, 0, Root)
  {
    hide TreeOK, InBin, PathCovers, Justified;
    JustifiedStart(i, nb);
    PathStart(m, C, i, T, nb, SIZE_T_LIMIT - nb);
  }

  /** Where the next step of the path leads, once node p has been looked at. */
  lemma OnPathStep(m: Memory, C: Chunks, end: int, i: nat, T: Trie, nb: nat, rsize: nat, p: Path, k: nat, rst: int, r: Path, rs: nat)
    requires Tiled(C, end) && TreeOK(m, C, i, T) && OnPath(C, i, T, nb, rsize, p, k, rst, r)
    requires rs == Improve(C, T, nb, rsize, p) && rs > 0
    ensures var rt, t := NodeAt(T, Down(p, true)), NodeAt(T, Down(p, SignBit(k)));
      var rst', r' := if rt != 0 && rt != t then rt else rst, if TakesRight(T, p, SignBit(k)) then Down(p, true) else r;
      if t == 0 then GoesOn(C, i, T, nb, rs, rst', r')
      else OnPath(C, i, T, nb, rs, Down(p, SignBit(k)), Shl64(k), rst', r') && 0 <= Open(i, Down(p, SignBit(k))) < Open(i, p)
  {
    hide TreeOK, Tiled, PathCovers, SignBit, Shl64, Lo, Pow2, SizeAt, WalkCovers, AllBeaten, InRange, InBin;
    PlacedAt(m, C, i, T, p);
    JustifiedRange(i, p, nb, k);
    OpenBits(i, p, SizeAt(C, T, p), nb);
    JustifiedStep(i, p, nb, k);
    var b := SignBit(k);
    JustifiedRange(i, Down(p, b), nb, Shl64(k));
    PathStep(m, C, i, T, nb, rsize, p, rst != 0, r, b);
    NodeNull(m, C, end, i, T, Down(p, true));
    NodeNull(m, C, end, i, T, Down(p, b));
    ChildrenDiffer(m, C, i, T, p);
    var rst' := if NodeAt(T, Down(p, true)) != 0 && NodeAt(T, Down(p, true)) != NodeAt(T, Down(p, b)) then NodeAt(T, Down(p, true)) else rst;
    var r' := if TakesRight(T, p, b) then Down(p, true) else r;
    if Down(p, b) !in T {
      PathEnd(m, C, i, T, nb, rs, Down(p, b), rst' != 0, r');
      PathRest(C, i, T, nb, rs, Down(p, b), rst' != 0, r');
    }
  }

  lemma JustifiedRange(i: nat, p: Path, s: int, k: nat)
    requires Justified(i, p, s, k)
    ensures InRange(i, p, s) && Open(i, p) >= 0
  {}

  lemma PathRest(C: Chunks, i: nat, T: Trie, nb: nat, rsize: nat, p: Path, some: bool, r: Path)
    requires PathCovers(C, i, T, nb, rsize, p, some, r)
    ensures some ==> r in T
  {}

  lemma ChildrenDiffer(m: Memory, C: Chunks, i: nat, T: Trie, p: Path)
    requires TreeOK(m, C, i, T)
    ensures NodeAt(T, Down(p, true)) != 0 ==> NodeAt(T, Down(p, true)) != NodeAt(T, Down(p, false))
  {
    hide InBin, InRange, Ring;
    var a, b := Down(p, true), Down(p, false);
    if NodeAt(T, a) != 0 && NodeAt(T, b) != 0 {
      TreeNode(m, C, i, T, a);
      TreeNode(m, C, i, T, b);
      assert LargeMember(C, a, SizeAt(C, T, a), T[a][0]) && LargeMember(C, b, SizeAt(C, T, b), T[b][0]);
    }
  }

  /** A look at the node of p: the remainder and the best node after it. */
  lemma LookAt(m: Memory, C: Chunks, end: int, i: nat, T: Trie, nb: nat, rsize: nat, v: int, vp: Path, p: Path)
    requires Tiled(C, end) && TreeOK(m, C, i, T) && p in T
    requires 0 < nb < SIZE_T_LIMIT && rsize <= SIZE_T_LIMIT - nb && BestSoFar(C, T, nb, rsize, v, vp)
    ensures var trem := Sub64(SizeAt(C, T, p), nb);
      && (trem < rsize ==> trem == Improve(C, T, nb, rsize, p) && BestSoFar(C, T, nb, trem, NodeAt(T, p), p))
      && (trem >= rsize ==> rsize == Improve(C, T, nb, rsize, p))
  {
    hide TreeOK, Tiled, Sub64, SizeAt, InBin, InRange;
    PlacedAt(m, C, i, T, p);
    Sub64Fit(SizeAt(C, T, p), nb, rsize);
    NodeNull(m, C, end, i, T, p);
  }

  // ----- The outcome over all bins -----

  /** Bins below that of nb hold only smaller chunks. */
  lemma BinsBelow(m: Memory, C: Chunks, Ts: seq<Trie>, i: nat, nb: nat)
    requires TreeBinsOK(m, C, Ts) && i < 32 && InBin(i, nb)
    ensures forall j, q | 0 <= j < i && q in Ts[j] :: SizeAt(C, Ts[j], q) < nb
  {
    hide InBin, SizeAt, TreeOK;
    forall j, q | 0 <= j < i && q in Ts[j] ensures SizeAt(C, Ts[j], q) < nb {
      assert TreeOK(m, C, j, Ts[j]);
      PlacedAt(m, C, j, Ts[j], q);
      if SizeAt(C, Ts[j], q) >= nb { BinsOrdered(i, nb, j, SizeAt(C, Ts[j], q)); }
    }
  }

  /** Bins above that of nb hold only larger chunks. */
  lemma BinAbove(m: Memory, C: Chunks, j: nat, T: Trie, i: nat, nb: nat)
    requires TreeOK(m, C, j, T) && i < j < 32 && InBin(i, nb)
    ensures forall q | q in T :: SizeAt(C, T, q) > nb
  {
    hide InBin, SizeAt, TreeOK;
    forall q | q in T ensures SizeAt(C, T, q) > nb {
      PlacedAt(m, C, j, T, q);
      if SizeAt(C, T, q) <= nb { BinsOrdered(j, SizeAt(C, T, q), i, nb); }
    }
  }

  /** The bin of nb has been searched to the end and held a fit. */
  lemma FoundInOwnBin(m: Memory, C: Chunks, end: int, Ts: seq<Trie>, i: nat, nb: nat, rsize: nat, v: int, p: Path)
    requires Tiled(C, end) && TreeBinsOK(m, C, Ts) && i < 32 && InBin(i, nb)
    requires AllBeaten(C, Ts[i], nb, rsize) && Candidate(C, Ts[i], nb, rsize, v, p)
    ensures BestTreeFit(C, nb, rsize)
    ensures v in C && C[v].kind.Large? && 8 * C[v].n == nb + rsize < SIZE_T_LIMIT
  {
    hide InBin, SizeAt, TreeOK, Tiled, Candidate, AllBeaten;
    assert TreeOK(m, C, i, Ts[i]);
    BinsBelow(m, C, Ts, i, nb);
    CandidateChunk(m, C, i, Ts[i], nb, rsize, v, p);
    BestOfBin(m, C, end, Ts, i, nb, rsize);
  }

  /** The bin of nb holds no fit, and bin j is the next marked one, searched to the end. */
  lemma FoundInNextBin(m: Memory, C: Chunks, end: int, Ts: seq<Trie>, i: nat, nb: nat, j: nat, rsize: nat, v: int, p: Path)
    requires Tiled(C, end) && TreeBinsOK(m, C, Ts) && i < j < 32 && InBin(i, nb) && nb <= SIZE_T_LIMIT
    requires AllBeaten(C, Ts[i], nb, SIZE_T_LIMIT - nb) && forall l: nat | i < l < j :: Root !in Ts[l]
    requires AllBeaten(C, Ts[j], nb, rsize) && Candidate(C, Ts[j], nb, rsize, v, p)
    ensures BestTreeFit(C, nb, rsize)
    ensures v in C && C[v].kind.Large? && 8 * C[v].n == nb + rsize < SIZE_T_LIMIT
  {
    hide InBin, SizeAt, TreeOK, Tiled, Candidate;
    assert TreeOK(m, C, j, Ts[j]) && TreeOK(m, C, i, Ts[i]);
    BinsBelow(m, C, Ts, i, nb);
    forall l, q | 0 <= l < j && q in Ts[l] ensures SizeAt(C, Ts[l], q) < nb {
      assert TreeOK(m, C, l, Ts[l]);
      if l == i {
        assert Beaten(C, Ts[i], nb, SIZE_T_LIMIT - nb, q);
        PlacedAt(m, C, i, Ts[i], q);
      } else if l > i {
        RootIn(m, C, l, Ts[l], q);
      }
    }
    CandidateChunk(m, C, j, Ts[j], nb, rsize, v, p);
    BestOfBin(m, C, end, Ts, j, nb, rsize);
  }

  /** Neither the bin of nb nor any bin above it holds a fit. */
  lemma FoundNowhere(m: Memory, C: Chunks, end: int, Ts: seq<Trie>, i: nat, nb: nat)
    requires Tiled(C, end) && TreeBinsOK(m, C, Ts) && i < 32 && InBin(i, nb) && nb <= SIZE_T_LIMIT
    requires AllBeaten(C, Ts[i], nb, SIZE_T_LIMIT - nb) && forall l: nat | i < l < 32 :: Root !in Ts[l]
    ensures BestTreeFit(C, nb, SIZE_T_LIMIT - nb)
  {
    hide InBin, SizeAt, TreeOK, Tiled, AllBeaten;
    BinsBelow(m, C, Ts, i, nb);
    forall l | i < l < 32 ensures Ts[l] == map[] {
      assert TreeOK(m, C, l, Ts[l]);
      EmptyOrRooted(m, C, l, Ts[l]);
    }
    BestOfBin(m, C, end, Ts, i, nb, SIZE_T_LIMIT - nb);
  }

  lemma NothingThere(m: Memory, C: Chunks, i: nat, T: Trie, nb: nat)
    requires TreeOK(m, C, i, T) && Root !in T && nb <= SIZE_T_LIMIT
    ensures GoesOn(C, i, T, nb, SIZE_T_LIMIT - nb, 0, Root)
    ensures BestSoFar(C, T, nb, SIZE_T_LIMIT - nb, 0, Root)
  {
    EmptyOrRooted(m, C, i, T);
  }

  lemma OnPathParts(m: Memory, C: Chunks, end: int, i: nat, T: Trie, nb: nat, rsize: nat, p: Path, k: nat, rst: int, r: Path)
    requires OnPath(C, i, T, nb, rsize, p, k, rst, r)
    ensures p in T && 0 < rsize <= SIZE_T_LIMIT - nb && Open(i, p) >= 0
  {
    JustifiedRange(i, p, nb, k);
  }

  lemma ExactlyFits(m: Memory, C: Chunks, i: nat, T: Trie, nb: nat, t: int, p: Path)
    requires TreeOK(m, C, i, T) && p in T && t == NodeAt(T, p)
    ensures GoesOn(C, i, T, nb, 0, t, p)
  {
    hide TreeOK;
    PlacedAt(m, C, i, T, p);
    ExactFit(C, i, T, nb, p);
  }

  lemma GoesOnParts(C: Chunks, i: nat, T: Trie, nb: nat, rsize: nat, t: int, p: Path)
    requires GoesOn(C, i, T, nb, rsize, t, p) && t != 0
    ensures p in T && t == NodeAt(T, p) && Open(i, p) >= 0
  {}

  lemma GoesOnStep(m: Memory, C: Chunks, i: nat, T: Trie, nb: nat, rsize: nat, t: int, p: Path)
    requires TreeOK(m, C, i, T) && GoesOn(C, i, T, nb, rsize, t, p) && t != 0
    ensures var c := LeftmostChild(T, p);
      && (c in T ==> 0 <= Open(i, c) < Open(i, p))
      && (forall u | u == NodeAt(T, c) && (u == 0 <==> c !in T) :: GoesOn(C, i, T, nb, Improve(C, T, nb, rsize, p), u, c))
  {
    hide TreeOK, WalkCovers, AllBeaten, Improve, NodeAt;
    WalkStep(m, C, i, T, nb, rsize, p);
    var c := LeftmostChild(T, p);
    if c in T { PlacedAt(m, C, i, T, c); }
  }

  lemma GoesOnEnd(C: Chunks, i: nat, T: Trie, nb: nat, rsize: nat, p: Path)
    requires GoesOn(C, i, T, nb, rsize, 0, p)
    ensures AllBeaten(C, T, nb, rsize)
  {}

  /** A subtree of fitting chunks was searched to the end, so something was found. */
  lemma SomethingFits(m: Memory, C: Chunks, i: nat, T: Trie, nb: nat, t: int, p: Path, rsize: nat, v: int, vp: Path)
    requires TreeOK(m, C, i, T) && 0 < nb < SIZE_T_LIMIT && t != 0 && GoesOn(C, i, T, nb, SIZE_T_LIMIT - nb, t, p)
    requires AllBeaten(C, T, nb, rsize) && BestSoFar(C, T, nb, rsize, v, vp)
    ensures v != 0
  {
    hide TreeOK, SizeAt;
    PlacedAt(m, C, i, T, p);
    assert Under(p, p) && Beaten(C, T, nb, rsize, p);
  }

  /** The root of a bin above that of nb: everything there fits. */
  lemma NextBinStart(m: Memory, C: Chunks, end: int, Ts: seq<Trie>, i: nat, j: nat, nb: nat)
    requires Tiled(C, end) && TreeBinsOK(m, C, Ts) && i < j < 32 && InBin(i, nb) && Root in Ts[j] && nb < SIZE_T_LIMIT
    ensures GoesOn(C, j, Ts[j], nb, SIZE_T_LIMIT - nb, NodeAt(Ts[j], Root), Root) && NodeAt(Ts[j], Root) != 0
    ensures BestSoFar(C, Ts[j], nb, SIZE_T_LIMIT - nb, 0, Root)
  {
    hide TreeOK, InBin, SizeAt;
    assert TreeOK(m, C, j, Ts[j]);
    BinAbove(m, C, j, Ts[j], i, nb);
    WalkStart(m, C, j, Ts[j], nb, SIZE_T_LIMIT - nb);
    NodeNull(m, C, end, j, Ts[j], Root);
  }
}
