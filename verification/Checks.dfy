/** The debug checks of ptmalloc.c, as statements about memory words and registers alone: the
    invariant of an mspace implies every one of them. */
module Checks {
  import opened BinMaps
  import opened Sizes
  import opened Layout
  import opened Tags
  import R = Rings
  import opened Paths
  import opened Bins
  import opened SmallOps
  import opened TreeOps
  import opened TreeUnlink
  import opened Search
  import opened States
  import opened Freeing
  import opened Mspaces
  import opened Finding

  const FENCEPOST_HEAD: int := 11

  function SizeOf(m: Memory, p: int): int { ChunkSize(At(m, p + 1)) }
  function NextChunk(m: Memory, p: int): int { p + SizeOf(m, p) / 8 }
  function PrevChunk(m: Memory, p: int): int { p - At(m, p) / 8 }
  predicate NextPinuse(m: Memory, p: int) { PInuse(At(m, NextChunk(m, p) + 1)) }

  /** do_check_inuse_chunk */
  predicate CheckInuse(m: Memory, p: int) {
    CInuse(At(m, p + 1)) && NextPinuse(m, p) && (PInuse(At(m, p + 1)) || NextChunk(m, PrevChunk(m, p)) == p)
  }

  /** do_check_free_chunk */
  predicate CheckFree(m: Memory, dv: int, top: int, p: int) {
    var sz, next := SizeOf(m, p), NextChunk(m, p);
    && !CInuse(At(m, p + 1)) && !NextPinuse(m, p)
    && (p != dv && p != top ==>
          && MIN_CHUNK_SIZE <= sz && sz % 8 == 0 && At(m, next) == sz && PInuse(At(m, p + 1))
          && (next == top || CInuse(At(m, next + 1)))
          && R.Bk(m, R.Fd(m, p)) == p && R.Fd(m, R.Bk(m, p)) == p)
  }

  /** do_check_top_chunk, for a segment of the given number of words. */
  predicate CheckTop(m: Memory, topsize: int, words: int, p: int) {
    var sz := At(m, p + 1) / 4 * 4;
    && sz == topsize && sz > 0 && sz == 8 * (words - p) - TOP_FOOT_SIZE
    && PInuse(At(m, p + 1)) && !PInuse(At(m, p + sz / 8 + 1))
  }

  /** do_check_malloced_chunk for a padded request of s bytes. */
  predicate CheckMalloced(m: Memory, p: int, s: int) {
    var sz := At(m, p + 1) / 4 * 4;
    CheckInuse(m, p) && sz % 8 == 0 && sz >= MIN_CHUNK_SIZE && s <= sz < s + MIN_CHUNK_SIZE
  }

  /** What do_check_smallbin asks of chunk p in bin i. */
  predicate CheckSmall(m: Memory, dv: int, top: int, i: nat, p: int) {
    && CheckFree(m, dv, top, p) && SizeOf(m, p) / 8 == i
    && (R.Bk(m, p) == SmallBinAt(i) || SizeOf(m, R.Bk(m, p)) == SizeOf(m, p))
    && CheckInuse(m, NextChunk(m, p))
  }

  /** What do_check_tree asks of chunk u in the list of tree node t. */
  predicate CheckTree(m: Memory, t: int, u: int) {
    var s, i := SizeOf(m, t), At(m, t + 7);
    var c0, c1, parent := At(m, u + 4), At(m, u + 5), At(m, u + 6);
    && MIN_LARGE_SIZE <= s && 0 <= i < 32 && i == TreeIndex(s) && MinSize(i) <= s && (i == 31 || s < MinSize(i + 1))
    && At(m, u + 7) == i && SizeOf(m, u) == s && !CInuse(At(m, u + 1)) && !NextPinuse(m, u)
    && R.Bk(m, R.Fd(m, u)) == u && R.Fd(m, R.Bk(m, u)) == u
    && (parent != 0 <==> u == t)
    && (if parent == 0 then c0 == 0 && c1 == 0
        else
          && parent != u && (At(m, parent + 4) == u || At(m, parent + 5) == u || At(m, parent) == u)
          && (c0 != 0 ==> At(m, c0 + 6) == u && c0 != u)
          && (c1 != 0 ==> At(m, c1 + 6) == u && c1 != u)
          && (c0 != 0 && c1 != 0 ==> SizeOf(m, c0) < SizeOf(m, c1)))
  }

  // ----- Single chunks -----

  lemma HeadOf(m: Memory, C: Chunks, end: int, p: int)
    requires Tiled(C, end) && Tagged(m, C, end) && p in C
    ensures SizeOf(m, p) == 8 * C[p].n && (CInuse(At(m, p + 1)) <==> C[p].kind == InUse) && (PInuse(At(m, p + 1)) <==> C[p].pin)
    ensures NextChunk(m, p) == p + C[p].n && At(m, p + 1) / 4 * 4 == 8 * C[p].n
  {
    assert TagOK(m, C, p);
    HeadFields(C[p]);
  }

  lemma InuseChecks(m: Memory, C: Chunks, end: int, p: int)
    requires Tiled(C, end) && Tagged(m, C, end) && p in C && C[p].kind == InUse
    ensures CheckInuse(m, p)
  {
    assert ChunkOK(C, end, p);
    HeadOf(m, C, end, p);
    HeadOf(m, C, end, p + C[p].n);
    if !C[p].pin {
      var r := FindPrev(C, end, 0, p);
      assert ChunkOK(C, end, r) && TagOK(m, C, r);
      HeadOf(m, C, end, r);
    }
  }

  lemma TopChecks(m: Memory, C: Chunks, end: int, top: int, topsize: int, words: int)
    requires Tiled(C, end) && Tagged(m, C, end) && TopOK(C, top, topsize) && words == end + TOP_FOOT_SIZE / 8
    ensures CheckTop(m, topsize, words, top)
  {
    assert ChunkOK(C, end, top);
    HeadOf(m, C, end, top);
  }

  /** The neighbours of a ring member point back at it. */
  lemma RingMutual(m: Memory, r: seq<int>, k: nat)
    requires R.Ring(m, r) && k < |r|
    ensures R.Fd(m, r[k]) == R.Next(r, k) && R.Bk(m, r[k]) == R.Prev(r, k)
    ensures R.Bk(m, R.Fd(m, r[k])) == r[k] && R.Fd(m, R.Bk(m, r[k])) == r[k]
  {
    assert R.LinkAt(m, r, k);
    assert R.LinkAt(m, r, if k + 1 < |r| then k + 1 else 0);
    assert R.LinkAt(m, r, if k == 0 then |r| - 1 else k - 1);
  }

  /** The tags around a free chunk outside top. */
  lemma FreeTags(m: Memory, C: Chunks, end: int, p: int)
    requires Tiled(C, end) && Tagged(m, C, end) && p in C && Free(C[p]) && C[p].kind != Top
    ensures var sz, next := SizeOf(m, p), NextChunk(m, p);
      && !CInuse(At(m, p + 1)) && !NextPinuse(m, p) && MIN_CHUNK_SIZE <= sz && sz % 8 == 0
      && At(m, next) == sz && PInuse(At(m, p + 1)) && CInuse(At(m, next + 1))
      && next in C && C[next].kind == InUse
  {
    assert ChunkOK(C, end, p) && TagOK(m, C, p);
    HeadOf(m, C, end, p);
    HeadOf(m, C, end, p + C[p].n);
  }

  lemma SmallChecks(m: Memory, C: Chunks, end: int, S: seq<seq<int>>, Ts: seq<Trie>, dv: int, dvsize: int, top: int, topsize: int, p: int)
    requires Heap(m, C, end, S, Ts) && DvOK(C, dv, dvsize) && TopOK(C, top, topsize) && p in C && C[p].kind == Small
    ensures C[p].n < 32 && CheckSmall(m, dv, top, C[p].n, p)
  {
    hide SmallBinsOK, TreeBinsOK, Tiled, Tagged, CheckInuse;
    var i := C[p].n;
    var k := WhereSmall(m, C, end, S, Ts, p);
    BinsSteady(m, C, end, S, Ts);
    FreeTags(m, C, end, p);
    InuseChecks(m, C, end, NextChunk(m, p));
    HeadOf(m, C, end, p);
    SmallMembers(m, C, S, i);
    var r := SmallRing(i, S[i]);
    RingMutual(m, r, k + 1);
    if k > 0 { HeadOf(m, C, end, S[i][k - 1]); }
  }

  lemma SmallMembers(m: Memory, C: Chunks, S: seq<seq<int>>, i: nat)
    requires SmallBinsOK(m, C, S) && i < 32
    ensures |S| == 32 && (S[i] != [] ==> R.Ring(m, SmallRing(i, S[i])))
    ensures forall k | 0 <= k < |S[i]| :: S[i][k] in C && C[S[i][k]].n == i
  {
    assert SmallBinOK(m, C, S[i], i);
    forall k | 0 <= k < |S[i]| ensures S[i][k] in C && C[S[i][k]].n == i { assert SmallMember(C, i, S[i][k]); }
  }

  /** Everything do_check_tree asks, of any chunk in a tree bin; t is the tree node of its size. */
  lemma TreeChecks(m: Memory, C: Chunks, end: int, S: seq<seq<int>>, Ts: seq<Trie>, u: int) returns (t: int)
    requires Heap(m, C, end, S, Ts) && u in C && C[u].kind.Large?
    ensures CheckTree(m, t, u)
  {
    hide Heap, TreeOK, Tiled, Tagged, InBin, NodeAt, CheckTree;
    var i, p, k := WhereLarge(m, C, end, S, Ts, u);
    SteadyTree(m, C, end, S, Ts, i);
    t := NodeAt(Ts[i], p);
    FreeTags(m, C, end, u);
    if k == 0 {
      MemberFacts(m, C, end, i, Ts[i], p, k);
      NodeChecks(m, C, end, i, Ts[i], p);
    } else {
      ChainChecks(m, C, end, i, Ts[i], p, k);
    }
  }

  /** do_check_tree at a tree node, whose head is that of a free chunk. */
  lemma NodeChecks(m: Memory, C: Chunks, end: int, i: nat, T: Trie, p: Path)
    requires Tiled(C, end) && Tagged(m, C, end) && TreeOK(m, C, i, T) && p in T && i < 32
    requires !CInuse(At(m, NodeAt(T, p) + 1)) && !NextPinuse(m, NodeAt(T, p))
    ensures CheckTree(m, NodeAt(T, p), NodeAt(T, p))
  {
    hide TreeOK, NodeOK, Tiled, Tagged, InBin, InRange, NodeAt, SizeAt, TreeIndex, TreeLinks, ParentAt, MinSize, NextPinuse, CInuse, SizeOf;
    TreeNode(m, C, i, T, p);
    ParentNotNull(m, C, end, i, T, p);
    NodeFacts(m, C, end, i, T, p);
    MemberFacts(m, C, end, i, T, p, 0);
    LinkFacts(m, C, end, i, T, p);
  }

  lemma ParentNotNull(m: Memory, C: Chunks, end: int, i: nat, T: Trie, p: Path)
    requires Tiled(C, end) && TreeOK(m, C, i, T) && p in T
    ensures ParentAt(i, T, p) != 0
  {
    hide TreeOK;
    if p.Down? {
      TreePlaced(m, C, i, T, p);
      NodeNull(m, C, end, i, T, p.up);
    }
  }

  /** do_check_tree at a chunk further along the ring of a node. */
  lemma ChainChecks(m: Memory, C: Chunks, end: int, i: nat, T: Trie, p: Path, k: nat)
    requires Tiled(C, end) && Tagged(m, C, end) && TreeOK(m, C, i, T) && p in T && i < 32 && 0 < k < |T[p]|
    requires !CInuse(At(m, T[p][k] + 1)) && !NextPinuse(m, T[p][k])
    ensures CheckTree(m, NodeAt(T, p), T[p][k])
  {
    hide TreeOK, NodeOK, Tiled, Tagged, InBin, InRange, NodeAt, SizeAt, TreeIndex, TreeLinks, ParentAt, MinSize, NextPinuse, CInuse, SizeOf;
    NodeFacts(m, C, end, i, T, p);
    MemberFacts(m, C, end, i, T, p, k);
    RingDistinctNode(m, C, i, T, p, k);
  }

  lemma RingDistinctNode(m: Memory, C: Chunks, i: nat, T: Trie, p: Path, k: nat)
    requires TreeOK(m, C, i, T) && p in T && 0 < k < |T[p]|
    ensures T[p][k] != NodeAt(T, p)
  {
    TreeRing(m, C, i, T, p);
    RingDistinct(m, T[p], 0, k);
  }

  lemma NodeFacts(m: Memory, C: Chunks, end: int, i: nat, T: Trie, p: Path)
    requires Tiled(C, end) && Tagged(m, C, end) && TreeOK(m, C, i, T) && p in T && i < 32
    ensures var t := NodeAt(T, p); var s := SizeOf(m, t);
      && s == SizeAt(C, T, p) && At(m, t + 7) == i
      && MIN_LARGE_SIZE <= s && i == TreeIndex(s) && MinSize(i) <= s && (i == 31 || s < MinSize(i + 1))
  {
    hide InRange, TreeOK, TreeIndex;
    NodeReads(m, C, end, i, T, p);
    PlacedAt(m, C, i, T, p);
    TreeNode(m, C, i, T, p);
    TreeIndexUnique(i, SizeAt(C, T, p));
  }

  lemma MemberFacts(m: Memory, C: Chunks, end: int, i: nat, T: Trie, p: Path, k: nat)
    requires Tiled(C, end) && Tagged(m, C, end) && TreeOK(m, C, i, T) && p in T && k < |T[p]|
    ensures var u := T[p][k];
      && At(m, u + 7) == i && SizeOf(m, u) == SizeAt(C, T, p)
      && R.Bk(m, R.Fd(m, u)) == u && R.Fd(m, R.Bk(m, u)) == u
      && (k > 0 ==> At(m, u + 4) == 0 && At(m, u + 5) == 0 && At(m, u + 6) == 0)
      && (k == 0 ==> u == NodeAt(T, p))
  {
    hide InRange, TreeOK, InBin;
    TreeNode(m, C, i, T, p);
    assert LargeMember(C, p, SizeAt(C, T, p), T[p][k]);
    HeadOf(m, C, end, T[p][k]);
    RingMutual(m, T[p], k);
    if k > 0 { assert ChainLinks(m, i, T[p][k]); }
  }

  /** The child word of a tree node on side b: null, or another node that points back. */
  lemma ChildFacts(m: Memory, C: Chunks, end: int, i: nat, T: Trie, p: Path, b: bool)
    requires Tiled(C, end) && Tagged(m, C, end) && TreeOK(m, C, i, T) && p in T && i < 32
    ensures var u, q := NodeAt(T, p), Down(p, b); var c := At(m, u + if b then 5 else 4);
      && c == NodeAt(T, q) && (c != 0 <==> q in T)
      && (c != 0 ==> At(m, c + 6) == u && c != u && SizeOf(m, c) == SizeAt(C, T, q))
  {
    hide Tiled, Tagged, InRange, TreeOK, InBin, SizeAt, ChunkSize, NodeOK;
    var q := Down(p, b);
    NodeReads(m, C, end, i, T, p);
    NodeNull(m, C, end, i, T, q);
    if q in T {
      NodeReads(m, C, end, i, T, q);
      TreeNode(m, C, i, T, q);
      DeeperChild(p, b);
    }
  }

  lemma DeeperChild(p: Path, b: bool)
    ensures Large(p) != Large(Down(p, b))
  {
    assert Depth(Down(p, b)) == Depth(p) + 1;
  }

  /** The smaller half of the sizes below a node is on the left. */
  lemma ChildOrder(m: Memory, C: Chunks, i: nat, T: Trie, p: Path)
    requires TreeOK(m, C, i, T) && Down(p, false) in T && Down(p, true) in T
    ensures SizeAt(C, T, Down(p, false)) < SizeAt(C, T, Down(p, true))
  {
    hide InRange, TreeOK, InBin, SizeAt, Lo, Pow2;
    PlacedAt(m, C, i, T, Down(p, false));
    PlacedAt(m, C, i, T, Down(p, true));
    Halves(i, p);
  }

  /** The parent of a tree node points at it, its children point back, and the left one is the
      smaller. */
  lemma LinkFacts(m: Memory, C: Chunks, end: int, i: nat, T: Trie, p: Path)
    requires Tiled(C, end) && Tagged(m, C, end) && TreeOK(m, C, i, T) && p in T && i < 32
    ensures var u := NodeAt(T, p); var c0, c1, parent := At(m, u + 4), At(m, u + 5), At(m, u + 6);
      && parent == ParentAt(i, T, p) && parent != u
      && (At(m, parent + 4) == u || At(m, parent + 5) == u || At(m, parent) == u)
      && (c0 != 0 ==> At(m, c0 + 6) == u && c0 != u) && (c1 != 0 ==> At(m, c1 + 6) == u && c1 != u)
      && (c0 != 0 && c1 != 0 ==> SizeOf(m, c0) < SizeOf(m, c1))
  {
    ParentWord(m, C, i, T, p);
    hide Tiled, Tagged, TreeOK, SizeAt, NodeAt, ParentAt, SizeOf;
    ParentFacts(m, C, end, i, T, p);
    ChildFacts(m, C, end, i, T, p, false);
    ChildFacts(m, C, end, i, T, p, true);
    if Down(p, false) in T && Down(p, true) in T { ChildOrder(m, C, i, T, p); }
  }

  lemma ParentWord(m: Memory, C: Chunks, i: nat, T: Trie, p: Path)
    requires TreeOK(m, C, i, T) && p in T
    ensures At(m, NodeAt(T, p) + 6) == ParentAt(i, T, p)
  {
    hide TreeOK, NodeOK;
    TreeNode(m, C, i, T, p);
  }

  lemma ParentFacts(m: Memory, C: Chunks, end: int, i: nat, T: Trie, p: Path)
    requires Tiled(C, end) && Tagged(m, C, end) && TreeOK(m, C, i, T) && p in T && i < 32
    ensures var u, parent := NodeAt(T, p), ParentAt(i, T, p);
      parent != u && (At(m, parent + 4) == u || At(m, parent + 5) == u || At(m, parent) == u)
  {
    hide InRange, InBin, SizeAt;
    NodeReads(m, C, end, i, T, p);
    if p.Down? {
      TreePlaced(m, C, i, T, p);
      NodeReads(m, C, end, i, T, p.up);
      assert p == Down(p.up, p.bit) && Depth(p) == Depth(p.up) + 1;
    }
  }

  // ----- The whole state -----

  /** The assertions of do_check_malloc_state and of what it calls, chunk by chunk: every chunk
      passes the check for its kind, and the bits of the bin maps agree with the bins. */
  lemma StateChecks(ms: Mspace)
    requires ms.Valid()
    ensures forall p | p in ms.C && ms.C[p].kind == InUse :: CheckInuse(ms.mem[..], p)
    ensures forall p | p in ms.C && Free(ms.C[p]) && p != ms.top :: CheckFree(ms.mem[..], ms.dv, ms.top, p)
    ensures CheckTop(ms.mem[..], ms.topsize, ms.mem.Length, ms.top)
    ensures ms.dvsize != 0 ==> ms.dvsize == SizeOf(ms.mem[..], ms.dv) && ms.dvsize >= MIN_CHUNK_SIZE
    ensures forall i: nat | i < 32 :: (R.Bk(ms.mem[..], SmallBinAt(i)) == SmallBinAt(i) ==> !Marked(ms.smallmap, i))
    ensures forall i: nat | i < 32 :: (At(ms.mem[..], TreeBinAt(i)) == 0 <==> !Marked(ms.treemap, i))
  {
    hide Heap, Tiled, Tagged, MapsOK, CheckInuse, CheckFree, CheckTop, SizeOf, Marked;
    var m, C := ms.mem[..], ms.C;
    BinsSteady(m, C, ms.end, ms.S, ms.Ts);
    forall p | p in C && C[p].kind == InUse ensures CheckInuse(m, p) { InuseChecks(m, C, ms.end, p); }
    forall p | p in C && Free(C[p]) && p != ms.top ensures CheckFree(m, ms.dv, ms.top, p) {
      FreeChecks(m, C, ms.end, ms.S, ms.Ts, ms.dv, ms.dvsize, ms.top, ms.topsize, p);
    }
    TopChecks(m, C, ms.end, ms.top, ms.topsize, ms.mem.Length);
    if ms.dvsize != 0 { DvChecks(m, C, ms.end, ms.dv, ms.dvsize); }
    forall i: nat | i < 32
      ensures R.Bk(m, SmallBinAt(i)) == SmallBinAt(i) ==> !Marked(ms.smallmap, i)
      ensures At(m, TreeBinAt(i)) == 0 <==> !Marked(ms.treemap, i)
    {
      BinChecks(m, C, ms.end, ms.S, ms.Ts, ms.smallmap, ms.treemap, i);
    }
  }

  lemma DvChecks(m: Memory, C: Chunks, end: int, dv: int, dvsize: int)
    requires Tiled(C, end) && Tagged(m, C, end) && DvOK(C, dv, dvsize) && dvsize != 0
    ensures dvsize == SizeOf(m, dv) && dvsize >= MIN_CHUNK_SIZE
  {
    HeadOf(m, C, end, dv);
    FreeTags(m, C, end, dv);
  }

  lemma FreeChecks(m: Memory, C: Chunks, end: int, S: seq<seq<int>>, Ts: seq<Trie>, dv: int, dvsize: int, top: int, topsize: int, p: int)
    requires Heap(m, C, end, S, Ts) && DvOK(C, dv, dvsize) && TopOK(C, top, topsize) && Settled(C) && p in C && Free(C[p]) && p != top
    ensures CheckFree(m, dv, top, p)
  {
    hide SmallBinsOK, TreeBinsOK, Tiled, Tagged, CheckTree, CheckInuse;
    BinsSteady(m, C, end, S, Ts);
    TopUnique(C, end, p, top);
    FreeTags(m, C, end, p);
    if C[p].kind == Small {
      SmallChecks(m, C, end, S, Ts, dv, dvsize, top, topsize, p);
    } else if C[p].kind.Large? {
      var i, q, k := WhereLarge(m, C, end, S, Ts, p);
      MemberFacts(m, C, end, i, Ts[i], q, k);
    }
  }

  lemma BinChecks(m: Memory, C: Chunks, end: int, S: seq<seq<int>>, Ts: seq<Trie>, sm: bv32, tm: bv32, i: nat)
    requires Heap(m, C, end, S, Ts) && MapsOK(S, Ts, sm, tm) && i < 32
    ensures R.Bk(m, SmallBinAt(i)) == SmallBinAt(i) ==> !Marked(sm, i)
    ensures At(m, TreeBinAt(i)) == 0 <==> !Marked(tm, i)
  {
    hide SmallBinsOK, TreeBinsOK, Tiled, Tagged, Marked, TreeOK;
    MapBit(S, Ts, sm, tm, i);
    SteadyTree(m, C, end, S, Ts, i);
    TreeSlot(m, C, i, Ts[i]);
    NodeNull(m, C, end, i, Ts[i], Root);
    if S[i] != [] {
      BinsSteady(m, C, end, S, Ts);
      SmallMembers(m, C, S, i);
      var r := SmallRing(i, S[i]);
      RingMutual(m, r, 0);
      assert R.Clear(r[0], r[|r| - 1]);
    }
  }

  /** traverse_and_check: no assertion in it fails, those about bin_find among them; no two free
      chunks follow each other; and the sizes it adds up make the footprint of the segment. */
  method TraverseAndCheck(ms: Mspace) returns (sum: nat)
    requires ms.Valid()
    ensures sum == 8 * ms.mem.Length
  {
    hide Heap, Tiled, Tagged, MapsOK, CheckInuse, CheckFree, CheckTop, SizeOf;
    ghost var m, C := ms.mem[..], ms.C;
    BinsSteady(m, C, ms.end, ms.S, ms.Ts);
    StateChecks(ms);
    TraverseStart(m, C, ms.end, ms.top, ms.topsize);
    sum := ms.topsize + TOP_FOOT_SIZE;
    var q, lastq := 0, -1;
    assert PInuse(ms.Get(q + 1));
    while 0 <= q < ms.mem.Length && q != ms.top && ms.Get(q + 1) != FENCEPOST_HEAD
      invariant q in C && q <= ms.top && sum == ms.topsize + TOP_FOOT_SIZE + 8 * q
      invariant 0 <= q && q + 1 < ms.mem.Length
      invariant ms.Get(q + 1) != FENCEPOST_HEAD
      invariant lastq == -1 || (lastq in C && lastq + C[lastq].n == q && 0 <= lastq && lastq + 1 < ms.mem.Length)
      decreases ms.top - q
    {
      TraverseStep(m, C, ms.end, ms.top, ms.topsize, q, lastq);
      sum := sum + ChunkSize(ms.Get(q + 1));
      var found := BinFind(ms, q);
      if CInuse(ms.Get(q + 1)) {
        assert !found;
        assert CheckInuse(ms.mem[..], q);
      } else {
        assert q == ms.dv || found;
        assert lastq == -1 || CInuse(ms.Get(lastq + 1));
        assert CheckFree(ms.mem[..], ms.dv, ms.top, q);
      }
      lastq := q;
      q := q + ChunkSize(ms.Get(q + 1)) / 8;
    }
  }

  /** The end of do_check_malloc_state: dv and top are found in no bin, and the traversal comes to
      the footprint. */
  method CheckMallocState(ms: Mspace) returns (dvFound: bool, topFound: bool, total: nat)
    requires ms.Valid()
    ensures !dvFound && !topFound && total == 8 * ms.mem.Length
  {
    hide Heap, MapsOK;
    dvFound := false;
    if ms.dvsize != 0 {
      dvFound := BinFind(ms, ms.dv);
    }
    topFound := BinFind(ms, ms.top);
    total := TraverseAndCheck(ms);
  }

  lemma TraverseStart(m: Memory, C: Chunks, end: int, top: int, topsize: int)
    requires Tiled(C, end) && Tagged(m, C, end) && TopOK(C, top, topsize)
    ensures 0 in C && 0 <= top && 1 < |m| && PInuse(At(m, 1)) && At(m, 1) != FENCEPOST_HEAD && 8 * top + topsize == 8 * end
  {
    assert ChunkOK(C, end, top) && TagOK(m, C, 0) && TagOK(m, C, top);
    HeadOf(m, C, end, 0);
  }

  lemma TraverseStep(m: Memory, C: Chunks, end: int, top: int, topsize: int, q: int, lastq: int)
    requires Tiled(C, end) && Tagged(m, C, end) && TopOK(C, top, topsize) && q in C && q != top
    ensures var next := q + C[q].n;
      && next in C && q < next <= top && 0 <= next && next + 1 < |m| && At(m, next + 1) != FENCEPOST_HEAD
      && ChunkSize(At(m, q + 1)) == 8 * C[q].n && (CInuse(At(m, q + 1)) <==> C[q].kind == InUse) && C[q].kind != Top
      && (lastq in C && lastq + C[lastq].n == q && C[q].kind != InUse ==> CInuse(At(m, lastq + 1)))
  {
    TopUnique(C, end, q, top);
    assert ChunkOK(C, end, q) && ChunkOK(C, end, q + C[q].n) && TagOK(m, C, q + C[q].n);
    assert Apart(C, q, top) && Apart(C, q + C[q].n, top) && ChunkOK(C, end, top);
    HeadOf(m, C, end, q);
    if lastq in C && lastq + C[lastq].n == q {
      assert ChunkOK(C, end, lastq);
      HeadOf(m, C, end, lastq);
    }
  }

  /** What mspace_malloc hands out passes do_check_malloced_chunk. */
  lemma MallocedChecks(m: Memory, C: Chunks, end: int, D: Chunks, p: int, s: nat)
    requires Tiled(D, end) && Tagged(m, D, end) && Served(C, D, p, s)
    ensures CheckMalloced(m, p, s)
  {
    assert ChunkOK(D, end, p);
    HeadOf(m, D, end, p);
    InuseChecks(m, D, end, p);
  }
}
