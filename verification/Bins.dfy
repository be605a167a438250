/** Small bins and tree bins: which free chunks they hold and how they are linked in memory. */
module Bins {
  import opened Sizes
  import opened Layout
  import opened Tags
  import opened Rings
  import opened Paths

  /** The chunks of a tree bin: for each occupied position, the ring of equal-sized chunks
      there. The first chunk of the ring is the tree node. */
  type Trie = map<Path, seq<int>>

  // Word addresses inside the malloc_state.
  function SmallBinAt(i: nat): int { 11 + 2 * i }
  function TreeBinAt(i: nat): int { 77 + i }

  // ----- Small bins -----

  ghost predicate SmallMember(C: Chunks, i: nat, a: int) {
    a in C && C[a].kind == Small && C[a].n == i
  }

  ghost predicate SmallBinOK(m: Memory, C: Chunks, L: seq<int>, i: nat) {
    && (forall k | 0 <= k < |L| :: SmallMember(C, i, L[k]))
    && (L != [] ==> Ring(m, [SmallBinAt(i)] + L))
  }

  ghost predicate InSmallBin(C: Chunks, S: seq<seq<int>>, a: int)
    requires a in C && |S| == 32
  {
    C[a].n < 32 && a in S[C[a].n]
  }

  /** Every bin is a ring of chunks of its size, and every small chunk is in its bin. */
  ghost predicate SmallBinsOK(m: Memory, C: Chunks, S: seq<seq<int>>) {
    && |S| == 32
    && (forall i {:trigger SmallBinOK(m, C, S[i], i)} | 0 <= i < 32 :: SmallBinOK(m, C, S[i], i))
    && (forall a {:trigger InSmallBin(C, S, a)} | a in C && C[a].kind == Small :: InSmallBin(C, S, a))
  }

  // ----- Tree bins -----

  function NodeAt(T: Trie, p: Path): int { if p in T && T[p] != [] then T[p][0] else 0 }

  function ParentAt(i: nat, T: Trie, p: Path): int {
    if p.Root? then TreeBinAt(i) else NodeAt(T, p.up)
  }

  function SizeAt(C: Chunks, T: Trie, p: Path): nat {
    if NodeAt(T, p) in C then 8 * C[NodeAt(T, p)].n else 0
  }

  ghost predicate LargeMember(C: Chunks, p: Path, s: nat, a: int) {
    a in C && C[a].kind == Large(p) && 8 * C[a].n == s
  }

  predicate TreeLinks(m: Memory, i: nat, T: Trie, p: Path) {
    var t := NodeAt(T, p);
    && At(m, t + 4) == NodeAt(T, Down(p, false))
    && At(m, t + 5) == NodeAt(T, Down(p, true))
    && At(m, t + 6) == ParentAt(i, T, p)
    && At(m, t + 7) == i
  }

  predicate ChainLinks(m: Memory, i: nat, a: int) {
    At(m, a + 4) == 0 && At(m, a + 5) == 0 && At(m, a + 6) == 0 && At(m, a + 7) == i
  }

  /** The size at p is of this bin, agrees with the path p, and p hangs off the root. */
  ghost predicate Placed(C: Chunks, i: nat, T: Trie, p: Path) {
    var s := SizeAt(C, T, p);
    s < SIZE_T_LIMIT && InBin(i, s) && InRange(i, p, s) && (p.Down? ==> p.up in T)
  }

  ghost predicate NodeOK(m: Memory, C: Chunks, i: nat, T: Trie, p: Path)
    requires p in T
  {
    && Ring(m, T[p])
    && (forall k | 0 <= k < |T[p]| :: LargeMember(C, p, SizeAt(C, T, p), T[p][k]))
    && TreeLinks(m, i, T, p)
    && (forall k | 1 <= k < |T[p]| :: ChainLinks(m, i, T[p][k]))
    && Placed(C, i, T, p)
  }

  ghost predicate UniqueSizes(C: Chunks, T: Trie) {
    forall p, q {:trigger SizeAt(C, T, p), SizeAt(C, T, q)} | p in T && q in T && p != q ::
      SizeAt(C, T, p) != SizeAt(C, T, q)
  }

  ghost predicate TreeOK(m: Memory, C: Chunks, i: nat, T: Trie) {
    && At(m, TreeBinAt(i)) == NodeAt(T, Root)
    && (forall p {:trigger NodeOK(m, C, i, T, p)} | p in T :: NodeOK(m, C, i, T, p))
    && UniqueSizes(C, T)
  }

  ghost predicate InTreeBin(C: Chunks, Ts: seq<Trie>, a: int)
    requires a in C && C[a].kind.Large? && |Ts| == 32
  {
    var i, p := TreeIndex(8 * C[a].n), C[a].kind.path;
    i < 32 && p in Ts[i] && a in Ts[i][p]
  }

  ghost predicate TreeBinsOK(m: Memory, C: Chunks, Ts: seq<Trie>) {
    && |Ts| == 32
    && (forall i {:trigger TreeOK(m, C, i, Ts[i])} | 0 <= i < 32 :: TreeOK(m, C, i, Ts[i]))
    && (forall a {:trigger InTreeBin(C, Ts, a)} | a in C && C[a].kind.Large? :: InTreeBin(C, Ts, a))
  }

  // ----- Bins that an operation leaves alone -----

  predicate Alike(c: Chunk, d: Chunk) { c.n == d.n && c.kind == d.kind }

  /** Member a keeps its size, its bin and its link words. */
  ghost predicate MemberKept(m: Memory, w: Memory, C: Chunks, D: Chunks, a: int) {
    a in C && a in D && Alike(C[a], D[a]) && BodyKept(m, w, C, a) && (C[a].kind.Large? ==> C[a].n >= 32) && C[a].n >= 4
  }

  lemma SmallBinKept(m: Memory, w: Memory, C: Chunks, D: Chunks, L: seq<int>, i: nat)
    requires SmallBinOK(m, C, L, i) && |w| == |m|
    requires Fd(w, SmallBinAt(i)) == Fd(m, SmallBinAt(i)) && Bk(w, SmallBinAt(i)) == Bk(m, SmallBinAt(i))
    requires forall k | 0 <= k < |L| :: MemberKept(m, w, C, D, L[k])
    ensures SmallBinOK(w, D, L, i)
  {
    forall k | 0 <= k < |L| ensures SmallMember(D, i, L[k]) {
      assert SmallMember(C, i, L[k]) && MemberKept(m, w, C, D, L[k]);
    }
    if L != [] {
      var r := [SmallBinAt(i)] + L;
      forall k | 0 <= k < |r| ensures Fd(w, r[k]) == Fd(m, r[k]) && Bk(w, r[k]) == Bk(m, r[k]) {
        if k > 0 { assert r[k] == L[k - 1] && MemberKept(m, w, C, D, L[k - 1]); }
      }
      RingKept(m, w, r);
    }
  }

  lemma NodeKept(m: Memory, w: Memory, C: Chunks, D: Chunks, i: nat, T: Trie, p: Path)
    requires p in T && NodeOK(m, C, i, T, p) && |w| == |m|
    requires forall k | 0 <= k < |T[p]| :: MemberKept(m, w, C, D, T[p][k])
    ensures SizeAt(D, T, p) == SizeAt(C, T, p)
    ensures NodeOK(w, D, i, T, p)
  {
    var r := T[p];
    assert LargeMember(C, p, SizeAt(C, T, p), r[0]) && MemberKept(m, w, C, D, r[0]);
    forall k | 0 <= k < |r|
      ensures LargeMember(D, p, SizeAt(D, T, p), r[k])
      ensures Fd(w, r[k]) == Fd(m, r[k]) && Bk(w, r[k]) == Bk(m, r[k])
      ensures k >= 1 ==> ChainLinks(w, i, r[k])
    {
      assert LargeMember(C, p, SizeAt(C, T, p), r[k]) && MemberKept(m, w, C, D, r[k]);
      if k >= 1 { assert ChainLinks(m, i, r[k]); }
    }
    RingKept(m, w, r);
    assert TreeLinks(m, i, T, p);
  }

  lemma TreeKept(m: Memory, w: Memory, C: Chunks, D: Chunks, i: nat, T: Trie)
    requires TreeOK(m, C, i, T) && |w| == |m| && At(w, TreeBinAt(i)) == At(m, TreeBinAt(i))
    requires forall p, k | p in T && 0 <= k < |T[p]| :: MemberKept(m, w, C, D, T[p][k])
    ensures TreeOK(w, D, i, T)
  {
    hide NodeOK, MemberKept, SizeAt;
    forall p | p in T ensures NodeOK(w, D, i, T, p) && SizeAt(D, T, p) == SizeAt(C, T, p) {
      assert NodeOK(m, C, i, T, p);
      NodeKept(m, w, C, D, i, T, p);
    }
  }

  /** C and D agree on which chunks are in bins, and in which. */
  ghost predicate SameBins(C: Chunks, D: Chunks) {
    && (forall a | a in C && Binned(C[a]) :: a in D && Alike(C[a], D[a]))
    && (forall a | a in D && Binned(D[a]) :: a in C && Alike(C[a], D[a]))
  }

  lemma MemberIsKept(m: Memory, w: Memory, C: Chunks, D: Chunks, end: int, P: set<int>, a: int)
    requires Tiled(C, end) && OthersKept(m, w, C, P)
    requires a in C && a !in P && Binned(C[a]) && a in D && Alike(C[a], D[a])
    ensures MemberKept(m, w, C, D, a)
  {
    assert ChunkOK(C, end, a) && BodyKept(m, w, C, a);
  }

  lemma StateKept(m: Memory, w: Memory, C: Chunks, end: int, P: set<int>, i: nat)
    requires Tiled(C, end) && OthersKept(m, w, C, P) && 0 !in P && i < 32
    ensures Fd(w, SmallBinAt(i)) == Fd(m, SmallBinAt(i)) && Bk(w, SmallBinAt(i)) == Bk(m, SmallBinAt(i))
    ensures At(w, TreeBinAt(i)) == At(m, TreeBinAt(i))
  {
    assert BodyKept(m, w, C, 0);
  }

  lemma SmallBinsKept(m: Memory, w: Memory, C: Chunks, D: Chunks, end: int, P: set<int>, S: seq<seq<int>>)
    requires Tiled(C, end) && SmallBinsOK(m, C, S) && OthersKept(m, w, C, P)
    requires 0 !in P && SameBins(C, D) && forall a | a in P && a in C :: !Binned(C[a])
    ensures SmallBinsOK(w, D, S)
  {
    hide Tiled, OthersKept, MemberKept;
    LengthKept(m, w, C, P);
    forall i | 0 <= i < 32 ensures SmallBinOK(w, D, S[i], i) {
      assert SmallBinOK(m, C, S[i], i);
      StateKept(m, w, C, end, P, i);
      forall k | 0 <= k < |S[i]| ensures MemberKept(m, w, C, D, S[i][k]) {
        assert SmallMember(C, i, S[i][k]);
        MemberIsKept(m, w, C, D, end, P, S[i][k]);
      }
      SmallBinKept(m, w, C, D, S[i], i);
    }
    forall a | a in D && D[a].kind == Small ensures InSmallBin(D, S, a) {
      assert InSmallBin(C, S, a);
    }
  }

  lemma LengthKept(m: Memory, w: Memory, C: Chunks, P: set<int>)
    requires OthersKept(m, w, C, P)
    ensures |w| == |m|
  {}

  lemma TreeBinsKept(m: Memory, w: Memory, C: Chunks, D: Chunks, end: int, P: set<int>, Ts: seq<Trie>)
    requires Tiled(C, end) && TreeBinsOK(m, C, Ts) && OthersKept(m, w, C, P)
    requires 0 !in P && SameBins(C, D) && forall a | a in P && a in C :: !Binned(C[a])
    ensures TreeBinsOK(w, D, Ts)
  {
    hide Tiled, OthersKept, MemberKept;
    LengthKept(m, w, C, P);
    forall i | 0 <= i < 32 ensures TreeOK(w, D, i, Ts[i]) {
      var T := Ts[i];
      assert TreeOK(m, C, i, T);
      StateKept(m, w, C, end, P, i);
      forall p, k | p in T && 0 <= k < |T[p]| ensures MemberKept(m, w, C, D, T[p][k]) {
        assert NodeOK(m, C, i, T, p) && LargeMember(C, p, SizeAt(C, T, p), T[p][k]);
        MemberIsKept(m, w, C, D, end, P, T[p][k]);
      }
      TreeKept(m, w, C, D, i, T);
    }
    forall a | a in D && D[a].kind.Large? ensures InTreeBin(D, Ts, a) {
      assert InTreeBin(C, Ts, a);
    }
  }

  // ----- The changes of the tiling that touch no binned chunk -----

  lemma MergeSameBins(C: Chunks, end: int, lo: int, n: nat, k: Kind, P: set<int>)
    requires Tiled(C, end) && CanMerge(C, end, lo, n, k) && !Binned(Chunk(n, k, true))
    requires Within(C, P, lo, n) && forall a | a in P && a in C :: !Binned(C[a])
    ensures SameBins(C, Merge(C, lo, n, k))
  {}

  lemma SplitSameBins(C: Chunks, end: int, p: int, k: nat, b: Kind)
    requires Tiled(C, end) && CanSplit(C, p, k, InUse, b) && !Binned(C[p])
    ensures SameBins(C, Split(C, p, k, InUse, b))
  {
    assert ChunkOK(C, end, p);
    assert forall q | q in C :: Apart(C, p, q);
  }

  lemma TakeSameBins(C: Chunks, p: int)
    requires p in C && !Binned(C[p])
    ensures SameBins(C, Retake(C, p, InUse))
  {}

  // ----- Link writes -----

  /** Word y is a link word of the free chunk a, or a bin header word of the malloc_state. */
  predicate LinkWord(C: Chunks, a: int, y: int) {
    if a == 0 then 2 <= y <= 108
    else a in C && Free(C[a]) && C[a].kind != Top && a + 2 <= y <= a + (if C[a].n >= 32 then 7 else 3)
  }

  /** From m to w, only link words of the chunks in N have changed. */
  ghost predicate LinksOnly(m: Memory, w: Memory, C: Chunks, end: int, N: set<int>) {
    && OthersKept(m, w, C, N)
    && At(w, end + 1) == At(m, end + 1)
    && (forall q {:trigger TagWordsKept(m, w, C, q)} | q in C :: TagWordsKept(m, w, C, q))
    && (forall q | q in N :: q == 0 || (q in C && Free(C[q])))
  }

  lemma OneLinkWrite(m: Memory, w: Memory, C: Chunks, end: int, a: int, y: int)
    requires Tiled(C, end) && LinkWord(C, a, y) && |w| == |m|
    requires forall x | x != y :: At(w, x) == At(m, x)
    ensures LinksOnly(m, w, C, end, {a})
  {
    assert ChunkOK(C, end, a) && ChunkOK(C, end, 0);
    forall q | q in C && q !in {a} ensures BodyKept(m, w, C, q) {
      assert Apart(C, a, q) && ChunkOK(C, end, q);
    }
    forall q | q in C ensures TagWordsKept(m, w, C, q) {
      assert Apart(C, a, q) && ChunkOK(C, end, q);
    }
  }

  ghost predicate LinkWordOf(C: Chunks, N: set<int>, y: int) { exists a | a in N :: LinkWord(C, a, y) }

  lemma NotLinkWord(C: Chunks, end: int, N: set<int>, q: int, y: int)
    requires Tiled(C, end) && q in C && (forall a | a in N :: a == 0 || (a in C && Free(C[a]) && C[a].kind != Top))
    requires (q !in N && q + 2 <= y <= q + C[q].n) || y == q + 1 || y == q + C[q].n || y == end + 1
    ensures !LinkWordOf(C, N, y)
  {
    assert ChunkOK(C, end, q);
    assert ChunkOK(C, end, 0);
    forall a | a in N ensures !LinkWord(C, a, y) {
      assert ChunkOK(C, end, a) && Apart(C, a, q);
    }
  }

  /** Any set of writes to link words of chunks in N. */
  lemma LinksFrom(m: Memory, w: Memory, C: Chunks, end: int, N: set<int>)
    requires Tiled(C, end) && |w| == |m| && (forall a | a in N :: a == 0 || (a in C && Free(C[a]) && C[a].kind != Top))
    requires forall y | !LinkWordOf(C, N, y) :: At(w, y) == At(m, y)
    ensures LinksOnly(m, w, C, end, N)
  {
    hide Tiled, LinkWordOf;
    forall q | q in C && q !in N ensures BodyKept(m, w, C, q) {
      forall y | q + 2 <= y <= q + C[q].n ensures At(w, y) == At(m, y) { NotLinkWord(C, end, N, q, y); }
    }
    forall q | q in C ensures TagWordsKept(m, w, C, q) {
      NotLinkWord(C, end, N, q, q + 1);
      NotLinkWord(C, end, N, q, q + C[q].n);
    }
    assert 0 in C by { TiledZero(C, end); }
    NotLinkWord(C, end, N, 0, end + 1);
  }

  lemma TiledZero(C: Chunks, end: int)
    requires Tiled(C, end)
    ensures 0 in C
  {}

  lemma LinksCompose(m: Memory, u: Memory, w: Memory, C: Chunks, end: int, M: set<int>, N: set<int>)
    requires LinksOnly(m, u, C, end, M) && LinksOnly(u, w, C, end, N)
    ensures LinksOnly(m, w, C, end, M + N)
  {
    forall q | q in C && q !in M + N ensures BodyKept(m, w, C, q) {
      assert BodyKept(m, u, C, q) && BodyKept(u, w, C, q);
    }
    forall q | q in C ensures TagWordsKept(m, w, C, q) {
      assert TagWordsKept(m, u, C, q) && TagWordsKept(u, w, C, q);
    }
  }

  lemma LinksTagged(m: Memory, w: Memory, C: Chunks, end: int, N: set<int>)
    requires Tiled(C, end) && Tagged(m, C, end) && LinksOnly(m, w, C, end, N)
    ensures Tagged(w, C, end)
  {
    LengthKept(m, w, C, N);
    TagsKept(m, w, C, end);
  }
}
