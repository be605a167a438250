/** set_inuse on blocks that stay in use: cutting a block in two, and growing one into top. */
module Reshape {
  import opened Sizes
  import opened Layout
  import opened Tags
  import opened Bins
  import opened SmallOps
  import opened Moves

  /** The words of a block's payload; the last one is the prev_foot field of the next chunk. */
  function Payload(m: Memory, C: Chunks, p: int): (s: seq<int>)
    requires p in C && C[p].n >= 1
    ensures |s| == C[p].n - 1
  {
    seq(C[p].n - 1, k requires 0 <= k => At(m, p + 2 + k))
  }

  // ----- A block cut into two blocks -----

  ghost predicate CutWrites(m: Memory, w: Memory, C: Chunks, p: int, k: nat)
    requires p in C && k <= C[p].n
  {
    var n := C[p].n;
    && |w| == |m| && At(w, p + 1) == Head(Chunk(k, InUse, C[p].pin)) && At(w, p + k + 1) == Head(Chunk(n - k, InUse, true))
    && forall x | x != p + 1 && x != p + k + 1 :: At(w, x) == At(m, x)
  }

  /** What the writes leave depends only on the old heads of p and of the chunk after p. */
  lemma CutHeads(m: Memory, C: Chunks, end: int, p: int, k: nat)
    requires Tiled(C, end) && Tagged(m, C, end) && p in C && C[p].kind == InUse && p > 0 && 4 <= k && k + 4 <= C[p].n
    ensures p + C[p].n + 1 < |m| && OrPInuse(At(m, p + C[p].n + 1)) == At(m, p + C[p].n + 1)
    ensures SetInuse(At(m, p + 1), 8 * k) == Head(Chunk(k, InUse, C[p].pin))
  {
    assert ChunkOK(C, end, p) && TagOK(m, C, p) && ChunkOK(C, end, p + C[p].n) && TagOK(m, C, p + C[p].n);
    HeadFields(C[p]);
    HeadFields(C[p + C[p].n]);
  }

  lemma TailHead(h: int, n: nat)
    ensures SetInuse(OrPInuse(h), 8 * n) == OrPInuse(SetInuse(h, 8 * n)) == Head(Chunk(n, InUse, true))
  {
    assert PInuse(OrPInuse(h));
    Parity(4 * n + 1);
    hide OrPInuse, PInuse;
    SetParity(h, 8 * n);
  }

  lemma Parity(x: int)
    ensures !PInuse(2 * x) && PInuse(2 * x + 1)
  {}

  lemma SetParity(h: int, s: int)
    requires !PInuse(s + 2) && PInuse(s + 3)
    ensures OrPInuse(SetInuse(h, s)) == s + 3
  {
    hide PInuse;
  }

  /** set_inuse(p, k words), then set_inuse on the rest. */
  lemma CutWrote(m: Memory, C: Chunks, end: int, p: int, k: nat)
    requires Tiled(C, end) && Tagged(m, C, end) && p in C && C[p].kind == InUse && p > 0 && 4 <= k && k + 4 <= C[p].n
    ensures p + C[p].n + 1 < |m|
    ensures var q, r, n := p + k, p + C[p].n, C[p].n;
      var m1 := m[p + 1 := SetInuse(At(m, p + 1), 8 * k)];
      var m2 := m1[q + 1 := OrPInuse(At(m1, q + 1))];
      var m3 := m2[q + 1 := SetInuse(At(m2, q + 1), 8 * (n - k))];
      CutWrites(m, m3[r + 1 := OrPInuse(At(m3, r + 1))], C, p, k)
  {
    CutHeads(m, C, end, p, k);
    TailHead(At(m, p + k + 1), C[p].n - k);
    hide Tiled, Tagged, SetInuse, OrPInuse, Head;
  }

  /** set_inuse on the rest, then set_inuse(p, k words). */
  lemma LeaderWrote(m: Memory, C: Chunks, end: int, p: int, k: nat)
    requires Tiled(C, end) && Tagged(m, C, end) && p in C && C[p].kind == InUse && p > 0 && 4 <= k && k + 4 <= C[p].n
    ensures p + C[p].n + 1 < |m|
    ensures var q, r, n := p + k, p + C[p].n, C[p].n;
      var m1 := m[q + 1 := SetInuse(At(m, q + 1), 8 * (n - k))];
      var m2 := m1[r + 1 := OrPInuse(At(m1, r + 1))];
      var m3 := m2[p + 1 := SetInuse(At(m2, p + 1), 8 * k)];
      CutWrites(m, m3[q + 1 := OrPInuse(At(m3, q + 1))], C, p, k)
  {
    CutHeads(m, C, end, p, k);
    TailHead(At(m, p + k + 1), C[p].n - k);
    hide Tiled, Tagged, SetInuse, OrPInuse, Head;
  }

  lemma CutTags(m: Memory, w: Memory, C: Chunks, end: int, p: int, k: nat)
    requires Tiled(C, end) && Tagged(m, C, end) && CanSplit(C, p, k, InUse, InUse) && C[p].kind == InUse && CutWrites(m, w, C, p, k)
    ensures Tagged(w, Split(C, p, k, InUse, InUse), end)
    ensures OthersKept(m, w, C, {p})
  {
    var n := C[p].n;
    assert ChunkOK(C, end, p) && TagOK(m, C, p) && TagOK(m, C, p + n);
    var D := Split(C, p, k, InUse, InUse);
    forall q | q in D ensures TagOK(w, D, q) {
      if q in C { assert ChunkOK(C, end, q) && TagOK(m, C, q) && Apart(C, p, q); }
    }
    forall q | q in C && q !in {p} ensures BodyKept(m, w, C, q) {
      assert ChunkOK(C, end, q) && Apart(C, p, q);
    }
  }

  lemma CutHeap(m: Memory, w: Memory, C: Chunks, end: int, S: seq<seq<int>>, Ts: seq<Trie>, p: int, k: nat)
    requires Heap(m, C, end, S, Ts) && p in C && C[p].kind == InUse && p > 0 && 4 <= k && k + 4 <= C[p].n
    requires CutWrites(m, w, C, p, k)
    ensures Heap(w, Split(C, p, k, InUse, InUse), end, S, Ts) && LiveKeptBut(m, w, C, p)
    ensures p + k !in C
  {
    hide Tagged, SmallBinsOK, TreeBinsOK, CutWrites;
    assert ChunkOK(C, end, p);
    forall q | q in C ensures q != p + k { assert Apart(C, p, q) && ChunkOK(C, end, q); }
    SplitTiled(C, end, p, k, InUse, InUse);
    CutTags(m, w, C, end, p, k);
    SplitSameBins(C, end, p, k, InUse);
    SmallBinsKept(m, w, C, Split(C, p, k, InUse, InUse), end, {p}, S);
    TreeBinsKept(m, w, C, Split(C, p, k, InUse, InUse), end, {p}, Ts);
  }

  // ----- A block grown into top -----

  /** The block p before top grows to k words; what is left of the two is top. */
  function Stretch(C: Chunks, p: int, k: nat, t: nat): Chunks
    requires p in C
  {
    (C - {p + C[p].n})[p := C[p].(n := k)][p + k := Chunk(t, Top, true)]
  }

  ghost predicate CanStretch(C: Chunks, p: int, k: nat, t: nat) {
    && p in C && p > 0 && C[p].kind == InUse && p + C[p].n in C && C[p + C[p].n].kind == Top
    && C[p].n < k && t >= 1 && k + t == C[p].n + C[p + C[p].n].n
  }

  lemma StretchChunkOK(C: Chunks, end: int, p: int, k: nat, t: nat, q: int)
    requires Tiled(C, end) && CanStretch(C, p, k, t) && q in Stretch(C, p, k, t)
    ensures ChunkOK(Stretch(C, p, k, t), end, q)
  {
    assert ChunkOK(C, end, p) && ChunkOK(C, end, p + C[p].n);
    if q in C { assert ChunkOK(C, end, q) && Apart(C, q, p) && Apart(C, q, p + C[p].n); }
  }

  lemma StretchTiled(C: Chunks, end: int, p: int, k: nat, t: nat)
    requires Tiled(C, end) && CanStretch(C, p, k, t)
    ensures Tiled(Stretch(C, p, k, t), end)
  {
    var D := Stretch(C, p, k, t);
    assert ChunkOK(C, end, p) && ChunkOK(C, end, 0) && ChunkOK(C, end, p + C[p].n) && Apart(C, 0, p);
    forall q | q in D ensures ChunkOK(D, end, q) {
      StretchChunkOK(C, end, p, k, t, q);
    }
    forall q, r | q in D && r in D ensures Apart(D, q, r) {
      assert q in C && r in C ==> Apart(C, q, r);
      assert q in C ==> Apart(C, q, p) && Apart(C, q, p + C[p].n) && ChunkOK(C, end, q);
      assert r in C ==> Apart(C, r, p) && Apart(C, r, p + C[p].n) && ChunkOK(C, end, r);
    }
  }

  ghost predicate StretchWrites(m: Memory, w: Memory, C: Chunks, p: int, k: nat, t: nat)
    requires p in C
  {
    && |w| == |m| && At(w, p + 1) == Head(C[p].(n := k)) && At(w, p + k + 1) == Head(Chunk(t, Top, true))
    && forall x | x != p + 1 && x != p + k + 1 :: At(w, x) == At(m, x)
  }

  /** The stores of internal_realloc that expand a block into top. */
  lemma StretchWrote(m: Memory, C: Chunks, end: int, p: int, k: nat, t: nat)
    requires Tiled(C, end) && Tagged(m, C, end) && CanStretch(C, p, k, t)
    ensures p + k + 1 < |m| && var m1 := m[p + 1 := SetInuse(At(m, p + 1), 8 * k)];
      var m2 := m1[p + k + 1 := OrPInuse(At(m1, p + k + 1))];
      StretchWrites(m, m2[p + k + 1 := 8 * t + 1], C, p, k, t)
  {
    assert ChunkOK(C, end, p) && TagOK(m, C, p) && ChunkOK(C, end, p + C[p].n);
    HeadFields(C[p]);
  }

  lemma StretchTags(m: Memory, w: Memory, C: Chunks, end: int, p: int, k: nat, t: nat)
    requires Tiled(C, end) && Tagged(m, C, end) && CanStretch(C, p, k, t) && StretchWrites(m, w, C, p, k, t)
    ensures Tagged(w, Stretch(C, p, k, t), end)
    ensures OthersKept(m, w, C, {p, p + C[p].n})
  {
    assert ChunkOK(C, end, p) && TagOK(m, C, p) && ChunkOK(C, end, p + C[p].n) && TagOK(m, C, p + C[p].n);
    var D := Stretch(C, p, k, t);
    forall q | q in D ensures TagOK(w, D, q) {
      if q in C { assert ChunkOK(C, end, q) && TagOK(m, C, q) && Apart(C, p, q) && Apart(C, p + C[p].n, q); }
    }
    forall q | q in C && q !in {p, p + C[p].n} ensures BodyKept(m, w, C, q) {
      assert ChunkOK(C, end, q) && Apart(C, p, q) && Apart(C, p + C[p].n, q);
    }
  }

  lemma StretchHeap(m: Memory, w: Memory, C: Chunks, end: int, S: seq<seq<int>>, Ts: seq<Trie>, p: int, k: nat, t: nat)
    requires Heap(m, C, end, S, Ts) && CanStretch(C, p, k, t) && StretchWrites(m, w, C, p, k, t)
    ensures Heap(w, Stretch(C, p, k, t), end, S, Ts) && LiveKept(m, w, C)
  {
    hide Tagged, SmallBinsOK, TreeBinsOK;
    var P, D := {p, p + C[p].n}, Stretch(C, p, k, t);
    StretchTiled(C, end, p, k, t);
    StretchTags(m, w, C, end, p, k, t);
    StretchApart(C, end, p, k);
    assert SameBins(C, D);
    SmallBinsKept(m, w, C, D, end, P, S);
    TreeBinsKept(m, w, C, D, end, P, Ts);
    assert BodyKept(m, w, C, p);
  }

  lemma StretchApart(C: Chunks, end: int, p: int, k: nat)
    requires Tiled(C, end) && p in C && C[p].kind == InUse && p + C[p].n in C && C[p].n < k < C[p].n + C[p + C[p].n].n
    ensures p + k !in C
  {
    forall q | q in C ensures q != p + k { assert Apart(C, p + C[p].n, q) && ChunkOK(C, end, q); }
  }
}
