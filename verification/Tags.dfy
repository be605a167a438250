/** Head and foot words: how the tiling is written into memory, and the macros that write it. */
module Tags {
  import opened Sizes
  import opened Layout

  // ----- Head and foot fields -----

  /** Size in bytes, with CINUSE and PINUSE in the low bits. */
  function Head(c: Chunk): int {
    8 * c.n + (if c.kind == InUse then 2 else 0) + (if c.pin then 1 else 0)
  }

  function ChunkSize(h: int): int { h / 8 * 8 }
  predicate CInuse(h: int) { h / 2 % 2 == 1 }
  predicate PInuse(h: int) { h % 2 == 1 }
  function OrPInuse(h: int): int { if PInuse(h) then h else h + 1 }
  function AndNotPInuse(h: int): int { if PInuse(h) then h - 1 else h }
  /** The head set_inuse stores over h. */
  function SetInuse(h: int, s: int): int { s + 2 + if PInuse(h) then 1 else 0 }

  lemma HeadFields(c: Chunk)
    ensures ChunkSize(Head(c)) == 8 * c.n && (CInuse(Head(c)) <==> c.kind == InUse) && (PInuse(Head(c)) <==> c.pin)
    ensures OrPInuse(Head(c)) == Head(c.(pin := true)) && AndNotPInuse(Head(c)) == Head(c.(pin := false))
  {}

  ghost predicate TagOK(m: Memory, C: Chunks, p: int)
    requires p in C
  {
    && 0 <= p && p + C[p].n < |m|
    && At(m, p + 1) == Head(C[p])
    && (Free(C[p]) && C[p].kind != Top ==> At(m, p + C[p].n) == 8 * C[p].n)
  }

  /** Every head and foot is right, and the fake chunk past the top keeps its head. */
  ghost predicate Tagged(m: Memory, C: Chunks, end: int) {
    && end + 1 < |m| && At(m, end + 1) == TOP_FOOT_SIZE
    && forall p {:trigger TagOK(m, C, p)} | p in C :: TagOK(m, C, p)
  }

  // ----- What a write leaves alone -----

  /** The payload of chunk q, with the foot word it lends its successor. */
  ghost predicate BodyKept(m: Memory, w: Memory, C: Chunks, q: int)
    requires q in C
  {
    forall x | q + 2 <= x <= q + C[q].n :: At(w, x) == At(m, x)
  }

  ghost predicate OthersKept(m: Memory, w: Memory, C: Chunks, P: set<int>) {
    && |w| == |m|
    && forall q {:trigger BodyKept(m, w, C, q)} | q in C && q !in P :: BodyKept(m, w, C, q)
  }

  ghost predicate TagWordsKept(m: Memory, w: Memory, C: Chunks, q: int)
    requires q in C
  {
    At(w, q + 1) == At(m, q + 1) && At(w, q + C[q].n) == At(m, q + C[q].n)
  }

  // ----- Storing a change of the tiling -----

  // Each lemma takes the memory w that a sequence of head and foot macros leaves behind, word
  // by word, and shows that w tags the changed tiling and that other bodies are untouched.

  /** set_inuse_and_pinuse(p, size of p): the whole free chunk goes into use. */
  lemma TakeTags(m: Memory, w: Memory, C: Chunks, end: int, p: int)
    requires Tiled(C, end) && Tagged(m, C, end) && p in C && Free(C[p]) && !C[p].kind.Top?
    requires var n := C[p].n;
      && |w| == |m| && At(w, p + 1) == 8 * n + 3 && At(w, p + n + 1) == OrPInuse(At(m, p + n + 1))
      && (forall x | x != p + 1 && x != p + n + 1 :: At(w, x) == At(m, x))
    ensures Tagged(w, Retake(C, p, InUse), end)
    ensures OthersKept(m, w, C, {p})
  {
    var n := C[p].n;
    assert ChunkOK(C, end, p) && TagOK(m, C, p);
    assert ChunkOK(C, end, p + n) && TagOK(m, C, p + n);
    var D := Retake(C, p, InUse);
    HeadFields(C[p + n]);
    forall q | q in D ensures TagOK(w, D, q) {
      assert ChunkOK(C, end, q) && TagOK(m, C, q) && Apart(C, p, q) && Apart(C, p + n, q);
    }
    forall q | q in C && q !in {p} ensures BodyKept(m, w, C, q) {
      assert ChunkOK(C, end, q) && Apart(C, p, q) && Apart(C, p + n, q);
    }
  }

  /** set_size_and_pinuse_of_inuse_chunk(p) and set_size_and_pinuse_of_free_chunk(p + k). */
  lemma SplitTags(m: Memory, w: Memory, C: Chunks, end: int, p: int, k: nat, b: Kind)
    requires Tiled(C, end) && Tagged(m, C, end) && CanSplit(C, p, k, InUse, b)
    requires b == Loose || b == Dv
    requires var n := C[p].n;
      && |w| == |m| && At(w, p + 1) == 8 * k + 3
      && At(w, p + k + 1) == 8 * (n - k) + 1 && At(w, p + n) == 8 * (n - k)
      && (forall x | x != p + 1 && x != p + k + 1 && x != p + n :: At(w, x) == At(m, x))
    ensures Tagged(w, Split(C, p, k, InUse, b), end)
    ensures OthersKept(m, w, C, {p})
  {
    var n := C[p].n;
    assert ChunkOK(C, end, p) && TagOK(m, C, p);
    var D := Split(C, p, k, InUse, b);
    forall q | q in D ensures TagOK(w, D, q) {
      if q in C { assert ChunkOK(C, end, q) && TagOK(m, C, q) && Apart(C, p, q); }
    }
    forall q | q in C && q !in {p} ensures BodyKept(m, w, C, q) {
      assert ChunkOK(C, end, q) && Apart(C, p, q);
    }
  }

  /** The front of top goes into use: r->head, then set_size_and_pinuse_of_inuse_chunk(p). */
  lemma SplitTopTags(m: Memory, w: Memory, C: Chunks, end: int, p: int, k: nat)
    requires Tiled(C, end) && Tagged(m, C, end) && CanSplit(C, p, k, InUse, Top)
    requires |w| == |m| && At(w, p + 1) == 8 * k + 3 && At(w, p + k + 1) == 8 * (C[p].n - k) + 1
    requires forall x | x != p + 1 && x != p + k + 1 :: At(w, x) == At(m, x)
    ensures Tagged(w, Split(C, p, k, InUse, Top), end)
    ensures OthersKept(m, w, C, {p})
  {
    assert ChunkOK(C, end, p) && TagOK(m, C, p);
    var D := Split(C, p, k, InUse, Top);
    forall q | q in D ensures TagOK(w, D, q) {
      if q in C { assert ChunkOK(C, end, q) && TagOK(m, C, q) && Apart(C, p, q); }
    }
    forall q | q in C && q !in {p} ensures BodyKept(m, w, C, q) {
      assert ChunkOK(C, end, q) && Apart(C, p, q);
    }
  }

  ghost predicate Within(C: Chunks, P: set<int>, lo: int, n: nat) {
    forall q | q in C && lo <= q < lo + n :: q in P
  }

  /** set_free_with_pinuse, or set_size_and_pinuse_of_free_chunk when the pinuse bit after the
      merged range is already clear. */
  lemma MergeTags(m: Memory, w: Memory, C: Chunks, end: int, lo: int, n: nat, k: Kind, P: set<int>)
    requires Tiled(C, end) && Tagged(m, C, end) && CanMerge(C, end, lo, n, k) && k != Top
    requires Within(C, P, lo, n)
    requires |w| == |m| && At(w, lo + 1) == 8 * n + 1 && At(w, lo + n) == 8 * n
    requires At(w, lo + n + 1) == AndNotPInuse(At(m, lo + n + 1))
    requires forall x | x != lo + 1 && x != lo + n && x != lo + n + 1 :: At(w, x) == At(m, x)
    ensures Tagged(w, Merge(C, lo, n, k), end)
    ensures OthersKept(m, w, C, P)
  {
    assert ChunkOK(C, end, lo) && TagOK(m, C, lo);
    assert ChunkOK(C, end, lo + n) && TagOK(m, C, lo + n);
    HeadFields(C[lo + n]);
    var D := Merge(C, lo, n, k);
    forall q | q in D ensures TagOK(w, D, q) {
      if q in C { assert ChunkOK(C, end, q) && TagOK(m, C, q) && Apart(C, lo, q) && Apart(C, lo + n, q); }
    }
    forall q | q in C && q !in P ensures BodyKept(m, w, C, q) {
      assert ChunkOK(C, end, q) && Apart(C, lo, q) && Apart(C, lo + n, q);
    }
  }

  /** p->head = tsize | PINUSE: the range up to the end of the segment becomes top. */
  lemma MergeTopTags(m: Memory, w: Memory, C: Chunks, end: int, lo: int, n: nat, P: set<int>)
    requires Tiled(C, end) && Tagged(m, C, end) && CanMerge(C, end, lo, n, Top)
    requires Within(C, P, lo, n)
    requires |w| == |m| && At(w, lo + 1) == 8 * n + 1
    requires forall x | x != lo + 1 :: At(w, x) == At(m, x)
    ensures Tagged(w, Merge(C, lo, n, Top), end)
    ensures OthersKept(m, w, C, P)
  {
    assert ChunkOK(C, end, lo) && TagOK(m, C, lo);
    var D := Merge(C, lo, n, Top);
    forall q | q in D ensures TagOK(w, D, q) {
      if q in C { assert ChunkOK(C, end, q) && TagOK(m, C, q) && Apart(C, lo, q); }
    }
    forall q | q in C && q !in P ensures BodyKept(m, w, C, q) {
      assert ChunkOK(C, end, q) && Apart(C, lo, q);
    }
  }

  /** Changing which kind of free chunk p is changes no tag. */
  lemma RekindTags(m: Memory, C: Chunks, end: int, p: int, k: Kind)
    requires Tiled(C, end) && Tagged(m, C, end) && p in C && Free(C[p]) && C[p].kind != Top && k != InUse && k != Top
    ensures Tagged(m, Rekind(C, p, k), end)
  {
    var D := Rekind(C, p, k);
    forall q | q in D ensures TagOK(m, D, q) {
      assert TagOK(m, C, q);
    }
  }

  /** Writes into bodies of binned chunks and of the malloc_state leave every tag alone. */
  lemma TagsKept(m: Memory, w: Memory, C: Chunks, end: int)
    requires Tiled(C, end) && Tagged(m, C, end) && |w| == |m|
    requires At(w, end + 1) == At(m, end + 1)
    requires forall q {:trigger TagWordsKept(m, w, C, q)} | q in C :: TagWordsKept(m, w, C, q)
    ensures Tagged(w, C, end)
  {
    forall q | q in C ensures TagOK(w, C, q) {
      assert TagOK(m, C, q) && TagWordsKept(m, w, C, q);
    }
  }
}
