/** The effect of the head and foot macros on the whole heap. */
module Moves {
  import opened Layout
  import opened Tags
  import opened Bins
  import opened SmallOps

  lemma OthersLive(m: Memory, w: Memory, C: Chunks, P: set<int>)
    requires OthersKept(m, w, C, P) && forall a | a in P && a in C && a != 0 :: Free(C[a])
    ensures LiveKept(m, w, C)
  {}

  /** set_inuse_and_pinuse on a loose or dv chunk. */
  lemma TakeHeap(m: Memory, w: Memory, C: Chunks, end: int, S: seq<seq<int>>, Ts: seq<Trie>, p: int)
    requires Heap(m, C, end, S, Ts) && p in C && C[p].kind in {Loose, Dv}
    requires var n := C[p].n;
      && |w| == |m| && At(w, p + 1) == 8 * n + 3 && At(w, p + n + 1) == OrPInuse(At(m, p + n + 1))
      && (forall x | x != p + 1 && x != p + n + 1 :: At(w, x) == At(m, x))
    ensures Heap(w, Retake(C, p, InUse), end, S, Ts) && LiveKept(m, w, C)
  {
    hide Tagged, SmallBinsOK, TreeBinsOK, OthersKept;
    TakeTiled(C, end, p);
    TakeTags(m, w, C, end, p);
    TakeSameBins(C, p);
    assert ChunkOK(C, end, p) && C[0].kind == InUse;
    SmallBinsKept(m, w, C, Retake(C, p, InUse), end, {p}, S);
    TreeBinsKept(m, w, C, Retake(C, p, InUse), end, {p}, Ts);
    OthersLive(m, w, C, {p});
  }

  /** set_size_and_pinuse_of_inuse_chunk(p) and set_size_and_pinuse_of_free_chunk(p + k). */
  lemma SplitHeap(m: Memory, w: Memory, C: Chunks, end: int, S: seq<seq<int>>, Ts: seq<Trie>, p: int, k: nat, b: Kind)
    requires Heap(m, C, end, S, Ts) && p in C && C[p].kind in {Loose, Dv} && b in {Loose, Dv}
    requires 4 <= k && k + 4 <= C[p].n
    requires var n := C[p].n;
      && |w| == |m| && At(w, p + 1) == 8 * k + 3
      && At(w, p + k + 1) == 8 * (n - k) + 1 && At(w, p + n) == 8 * (n - k)
      && (forall x | x != p + 1 && x != p + k + 1 && x != p + n :: At(w, x) == At(m, x))
    ensures Heap(w, Split(C, p, k, InUse, b), end, S, Ts) && LiveKept(m, w, C)
  {
    hide Tagged, SmallBinsOK, TreeBinsOK, OthersKept;
    assert ChunkOK(C, end, p) && C[0].kind == InUse;
    SplitTiled(C, end, p, k, InUse, b);
    SplitTags(m, w, C, end, p, k, b);
    SplitSameBins(C, end, p, k, b);
    SmallBinsKept(m, w, C, Split(C, p, k, InUse, b), end, {p}, S);
    TreeBinsKept(m, w, C, Split(C, p, k, InUse, b), end, {p}, Ts);
    OthersLive(m, w, C, {p});
  }

  /** The front of top goes into use. */
  lemma SplitTopHeap(m: Memory, w: Memory, C: Chunks, end: int, S: seq<seq<int>>, Ts: seq<Trie>, p: int, k: nat)
    requires Heap(m, C, end, S, Ts) && p in C && C[p].kind == Top && 4 <= k < C[p].n
    requires |w| == |m| && At(w, p + 1) == 8 * k + 3 && At(w, p + k + 1) == 8 * (C[p].n - k) + 1
    requires forall x | x != p + 1 && x != p + k + 1 :: At(w, x) == At(m, x)
    ensures Heap(w, Split(C, p, k, InUse, Top), end, S, Ts) && LiveKept(m, w, C)
  {
    hide Tagged, SmallBinsOK, TreeBinsOK, OthersKept;
    assert ChunkOK(C, end, p) && C[0].kind == InUse;
    SplitTiled(C, end, p, k, InUse, Top);
    SplitTopTags(m, w, C, end, p, k);
    SplitSameBins(C, end, p, k, Top);
    SmallBinsKept(m, w, C, Split(C, p, k, InUse, Top), end, {p}, S);
    TreeBinsKept(m, w, C, Split(C, p, k, InUse, Top), end, {p}, Ts);
    OthersLive(m, w, C, {p});
  }

  /** Every live block but x keeps its payload. */
  ghost predicate LiveKeptBut(m: Memory, w: Memory, C: Chunks, x: int) {
    && |w| == |m|
    && forall q {:trigger BodyKept(m, w, C, q)} | q in C && q != 0 && q != x && C[q].kind == InUse :: BodyKept(m, w, C, q)
  }

  /** The merged range holds the freed chunk x and unbinned free chunks only. */
  ghost predicate Mergeable(C: Chunks, P: set<int>, x: int, lo: int, n: nat) {
    && Within(C, P, lo, n) && 0 !in P
    && forall a | a in P && a in C :: !Binned(C[a]) && (a == x || Free(C[a]))
  }

  /** set_free_with_pinuse over the chunk x being freed and its unlinked free neighbours. */
  lemma MergeHeap(m: Memory, w: Memory, C: Chunks, end: int, S: seq<seq<int>>, Ts: seq<Trie>, x: int, lo: int, n: nat, k: Kind, P: set<int>)
    requires Heap(m, C, end, S, Ts) && CanMerge(C, end, lo, n, k) && k in {Loose, Dv} && Mergeable(C, P, x, lo, n)
    requires |w| == |m| && At(w, lo + 1) == 8 * n + 1 && At(w, lo + n) == 8 * n
    requires At(w, lo + n + 1) == AndNotPInuse(At(m, lo + n + 1))
    requires forall y | y != lo + 1 && y != lo + n && y != lo + n + 1 :: At(w, y) == At(m, y)
    ensures Heap(w, Merge(C, lo, n, k), end, S, Ts) && LiveKeptBut(m, w, C, x)
  {
    hide Tagged, SmallBinsOK, TreeBinsOK;
    MergeTiled(C, end, lo, n, k);
    MergeTags(m, w, C, end, lo, n, k, P);
    MergeSameBins(C, end, lo, n, k, P);
    SmallBinsKept(m, w, C, Merge(C, lo, n, k), end, P, S);
    TreeBinsKept(m, w, C, Merge(C, lo, n, k), end, P, Ts);
  }

  /** The freed chunk and its neighbours become part of top. */
  lemma MergeTopHeap(m: Memory, w: Memory, C: Chunks, end: int, S: seq<seq<int>>, Ts: seq<Trie>, x: int, lo: int, n: nat, P: set<int>)
    requires Heap(m, C, end, S, Ts) && CanMerge(C, end, lo, n, Top) && Mergeable(C, P, x, lo, n)
    requires |w| == |m| && At(w, lo + 1) == 8 * n + 1
    requires forall y | y != lo + 1 :: At(w, y) == At(m, y)
    ensures Heap(w, Merge(C, lo, n, Top), end, S, Ts) && LiveKeptBut(m, w, C, x)
  {
    hide Tagged, SmallBinsOK, TreeBinsOK;
    MergeTiled(C, end, lo, n, Top);
    MergeTopTags(m, w, C, end, lo, n, P);
    MergeSameBins(C, end, lo, n, Top, P);
    SmallBinsKept(m, w, C, Merge(C, lo, n, Top), end, P, S);
    TreeBinsKept(m, w, C, Merge(C, lo, n, Top), end, P, Ts);
  }
}
