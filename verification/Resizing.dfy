/** internal_realloc and internal_memalign, seen as changes of the map of live blocks. */
module Resizing {
  import opened Sizes
  import opened Layout
  import opened Tags
  import opened Bins
  import opened SmallOps
  import opened Moves
  import opened States
  import opened Freeing
  import opened Reshape
  import opened Blocks
  import opened Words
  import opened Align

  /** Block p has been replaced by block q, of at least nb bytes, head included, and less than
      MIN_CHUNK_SIZE more; q starts as p did, and no other block has changed. */
  ghost predicate Resized(b: BlockMap, c: BlockMap, p: int, q: int, nb: nat) {
    && p in b && q in c && c - {q} == b - {p} && PrefixKept(b[p], c[q])
    && nb <= 8 * (|c[q]| + 1) < nb + MIN_CHUNK_SIZE
  }

  /** Block p has been cut: its front stays, its back is now block q. */
  ghost predicate CutOff(b: BlockMap, c: BlockMap, p: int, k: nat) {
    && p in b && p in c && p + k in c && p + k !in b && c - {p, p + k} == b - {p} && PrefixKept(b[p], c[p])
    && |c[p]| == k - 1 && |c[p + k]| == |b[p]| - k
  }

  // ----- Registers -----

  lemma CutRegisters(C: Chunks, end: int, p: int, k: nat, dv: int, dvsize: int, top: int, topsize: int)
    requires Tiled(C, end) && p in C && C[p].kind == InUse && p > 0 && 4 <= k && k + 4 <= C[p].n && p + k !in C
    requires DvOK(C, dv, dvsize) && TopOK(C, top, topsize) && Settled(C)
    ensures var D := Split(C, p, k, InUse, InUse); DvOK(D, dv, dvsize) && TopOK(D, top, topsize) && Settled(D)
  {
    assert ChunkOK(C, end, p);
    assert SameDvTop(C, Split(C, p, k, InUse, InUse));
  }

  lemma StretchRegisters(C: Chunks, end: int, p: int, k: nat, t: nat, dv: int, dvsize: int)
    requires Tiled(C, end) && CanStretch(C, p, k, t) && DvOK(C, dv, dvsize) && Settled(C)
    ensures var D := Stretch(C, p, k, t); DvOK(D, dv, dvsize) && TopOK(D, p + k, 8 * t) && Settled(D)
  {
    assert ChunkOK(C, end, p);
    StretchApart(C, end, p, k);
  }

  // ----- Blocks -----

  lemma CutLive(m: Memory, w: Memory, C: Chunks, end: int, S: seq<seq<int>>, Ts: seq<Trie>, p: int, k: nat)
    requires Heap(m, C, end, S, Ts) && p in C && C[p].kind == InUse && p > 0 && 4 <= k && k + 4 <= C[p].n
    requires CutWrites(m, w, C, p, k)
    ensures CutOff(Live(m, C), Live(w, Split(C, p, k, InUse, InUse)), p, k)
  {
    var D := Split(C, p, k, InUse, InUse);
    CutHeap(m, w, C, end, S, Ts, p, k);
    assert ChunkOK(C, end, p);
    hide Heap, Tiled, Payload;
    forall q | q in C && q != p && q != 0 && C[q].kind == InUse && C[q].n >= 4
      ensures q in D && Payload(w, D, q) == Payload(m, C, q)
    {
      SamePayload(m, w, C, D, q);
    }
    CutPayload(m, w, C, D, p, k);
  }

  lemma CutPayload(m: Memory, w: Memory, C: Chunks, D: Chunks, p: int, k: nat)
    requires p in C && 4 <= k && k + 4 <= C[p].n && p in D && D[p].n == k && CutWrites(m, w, C, p, k)
    ensures PrefixKept(Payload(m, C, p), Payload(w, D, p))
  {}

  lemma StretchLive(m: Memory, w: Memory, C: Chunks, end: int, S: seq<seq<int>>, Ts: seq<Trie>, p: int, k: nat, t: nat)
    requires Heap(m, C, end, S, Ts) && CanStretch(C, p, k, t) && StretchWrites(m, w, C, p, k, t)
    ensures Resized(Live(m, C), Live(w, Stretch(C, p, k, t)), p, p, 8 * k)
  {
    var D := Stretch(C, p, k, t);
    StretchHeap(m, w, C, end, S, Ts, p, k, t);
    StretchApart(C, end, p, k);
    assert ChunkOK(C, end, p);
    hide Heap, Tiled, Payload;
    forall q | q in C && q != p && q != 0 && C[q].kind == InUse && C[q].n >= 4
      ensures q in D && Payload(w, D, q) == Payload(m, C, q)
    {
      SamePayload(m, w, C, D, q);
    }
    StretchPayload(m, w, C, D, p, k, t);
  }

  lemma StretchPayload(m: Memory, w: Memory, C: Chunks, D: Chunks, p: int, k: nat, t: nat)
    requires p in C && 4 <= C[p].n < k && p in D && D[p].n == k && StretchWrites(m, w, C, p, k, t)
    ensures PrefixKept(Payload(m, C, p), Payload(w, D, p))
  {}

  // ----- Writes into a payload -----

  ghost predicate PayloadWrites(m: Memory, w: Memory, C: Chunks, p: int)
    requires p in C
  {
    |w| == |m| && forall x | !(p + 2 <= x <= p + C[p].n) :: At(w, x) == At(m, x)
  }

  /** A client may write anything into the payload of its block. */
  lemma PayloadHeap(m: Memory, w: Memory, C: Chunks, end: int, S: seq<seq<int>>, Ts: seq<Trie>, p: int)
    requires Heap(m, C, end, S, Ts) && p in C && p != 0 && C[p].kind == InUse && PayloadWrites(m, w, C, p)
    ensures Heap(w, C, end, S, Ts) && LiveKeptBut(m, w, C, p)
  {
    hide SmallBinsOK, TreeBinsOK;
    PayloadTags(m, w, C, end, p);
    SmallBinsKept(m, w, C, C, end, {p}, S);
    TreeBinsKept(m, w, C, C, end, {p}, Ts);
  }

  lemma PayloadTags(m: Memory, w: Memory, C: Chunks, end: int, p: int)
    requires Tiled(C, end) && Tagged(m, C, end) && p in C && C[p].kind == InUse && PayloadWrites(m, w, C, p)
    ensures Tagged(w, C, end) && OthersKept(m, w, C, {p})
  {
    assert ChunkOK(C, end, p);
    forall q | q in C ensures TagOK(w, C, q) {
      assert TagOK(m, C, q) && Apart(C, p, q) && ChunkOK(C, end, q);
    }
    forall q | q in C && q !in {p} ensures BodyKept(m, w, C, q) {
      assert Apart(C, p, q) && ChunkOK(C, end, q);
    }
  }

  lemma LiveBut(m: Memory, w: Memory, C: Chunks, x: int)
    requires LiveKeptBut(m, w, C, x)
    ensures Live(w, C) - {x} == Live(m, C) - {x}
  {
    hide Payload;
    forall q | q in Live(m, C) && q != x ensures Live(w, C)[q] == Live(m, C)[q] {
      SamePayload(m, w, C, C, q);
    }
  }

  // ----- internal_realloc -----

  /** The block can be cut, can grow into top, or can move. */
  ghost predicate CanRealloc(C: Chunks, p: int, bytes: nat)
    requires p in C
  {
    bytes < MAX_REQUEST &&
    (Request2Size(bytes) <= 8 * C[p].n || CanServe(C, bytes) ||
     (p + C[p].n in C && C[p + C[p].n].kind == Top && 8 * (C[p].n + C[p + C[p].n].n) > Request2Size(bytes)))
  }

  lemma StaysPut(b: BlockMap, p: int, nb: nat)
    requires p in b && nb <= 8 * (|b[p]| + 1) < nb + MIN_CHUNK_SIZE
    ensures Resized(b, b, p, p, nb)
  {}

  lemma CutThenFreed(b: BlockMap, c: BlockMap, d: BlockMap, p: int, k: nat)
    requires CutOff(b, c, p, k) && d == c - {p + k} && k >= 4
    ensures Resized(b, d, p, p, 8 * k)
  {
    assert d - {p} == c - {p, p + k};
  }

  lemma CutMember(w: Memory, D: Chunks, b: BlockMap, p: int, k: nat)
    requires CutOff(b, Live(w, D), p, k)
    ensures p + k in D && D[p + k].kind == InUse
  {}

  /** Malloc, copy and free together. */
  lemma Moved(b0: BlockMap, b1: BlockMap, b2: BlockMap, b3: BlockMap, p: int, q: int, nb: nat)
    requires p in b0 && q !in b0 && q in b1 && b1 - {q} == b0
    requires b2 - {q} == b1 - {q} && q in b2 && |b2[q]| == |b1[q]| && PrefixKept(b1[p], b2[q]) && b3 == b2 - {p}
    requires nb <= 8 * (|b1[q]| + 1) < nb + MIN_CHUNK_SIZE
    ensures Resized(b0, b3, p, q, nb)
  {
    assert b3 - {q} == (b2 - {q}) - {p};
    assert b1[p] == (b1 - {q})[p];
  }

  /** The first k words from q on are those that stood from p on. */
  ghost predicate Copied(m: Memory, w: Memory, q: int, p: int, k: nat) {
    forall x | q <= x < q + k :: At(w, x) == At(m, x - q + p)
  }

  lemma CopiedStep(m: Memory, w: Memory, C: Chunks, q: int, p: int, k: nat)
    requires p in C && q in C && PayloadWrites(m, w, C, q) && Copied(m, w, q + 2, p + 2, k)
    requires k < C[p].n - 1 <= C[q].n - 1 && 0 <= q && q + C[q].n < |w| && (p + C[p].n <= q || q + C[q].n <= p)
    ensures var u := w[q + 2 + k := At(w, p + 2 + k)];
      Copied(m, u, q + 2, p + 2, k + 1) && PayloadWrites(m, u, C, q)
  {
    var u := w[q + 2 + k := At(w, p + 2 + k)];
    assert At(w, p + 2 + k) == At(m, p + 2 + k);
    forall x | q + 2 <= x < q + 2 + (k + 1) ensures At(u, x) == At(m, x - (q + 2) + (p + 2)) {
      if x < q + 2 + k { assert At(w, x) == At(m, x - (q + 2) + (p + 2)); }
    }
  }

  lemma CopiedPrefix(m: Memory, w: Memory, C: Chunks, q: int, p: int)
    requires p in C && q in C && 4 <= C[p].n <= C[q].n && Copied(m, w, q + 2, p + 2, C[p].n - 1)
    ensures PrefixKept(Payload(m, C, p), Payload(w, C, q))
  {
    forall k | 0 <= k < C[p].n - 1 ensures Payload(w, C, q)[k] == Payload(m, C, p)[k] {
      assert At(w, q + 2 + k) == At(m, p + 2 + k);
    }
  }

  lemma PayloadsClear(m: Memory, C: Chunks, end: int, S: seq<seq<int>>, Ts: seq<Trie>, p: int, q: int)
    requires Heap(m, C, end, S, Ts) && p in C && q in C && p != q && C[p].n >= 4 && C[q].n >= 4
    ensures p + C[p].n <= q || q + C[q].n <= p
  {
    assert Apart(C, p, q);
  }

  /** top is the top chunk, and the only one. */
  lemma TopIs(m: Memory, C: Chunks, end: int, S: seq<seq<int>>, Ts: seq<Trie>, top: int, topsize: int)
    requires Heap(m, C, end, S, Ts) && TopOK(C, top, topsize)
    ensures top in C && topsize == 8 * C[top].n && forall a | a in C && C[a].kind == Top :: a == top
    ensures C[top].kind == Top
  {
    forall a | a in C && C[a].kind == Top ensures a == top { TopUnique(C, end, a, top); }
  }

  // ----- internal_memalign -----

  /** The request, or for a true alignment the enlarged request, can be served. */
  ghost predicate CanAlign(C: Chunks, alignment: nat, bytes: nat) {
    if alignment <= 8 then CanServe(C, bytes)
    else (
      && bytes + AlignTo(alignment) < MAX_REQUEST
      && CanServe(C, Request2Size(bytes) + AlignTo(alignment) + MIN_CHUNK_SIZE - 8)
    )
  }

  lemma WordAligned(base: nat, r: int)
    requires base % 8 == 0
    ensures Aligned(base + 8 * r, 8)
  {}

  lemma AlignBounds(alignment: nat, a: nat)
    requires 8 < alignment <= SIZE_T_LIMIT / 2 && a == AlignTo(alignment)
    ensures PowerOfTwo(a) && MIN_CHUNK_SIZE <= a <= SIZE_T_LIMIT / 2
  {
    var x := if alignment < MIN_CHUNK_SIZE then MIN_CHUNK_SIZE else alignment;
    LeastPow2Exact(x);
    var k: nat :| a == Pow2(k);
    var w := 64;
    PowLimit(w);
    if k >= w { PowMonotone(w, k); } else { PowMonotone(k, w - 1); }
  }

  lemma AskFor(nb: nat, a: nat, bytes: nat)
    requires nb == Request2Size(bytes) && bytes < MAX_REQUEST - a && a >= MIN_CHUNK_SIZE
    ensures nb + a + MIN_CHUNK_SIZE - 8 < SIZE_T_LIMIT && MAX_REQUEST >= a
  {}

  /** The chunk got for the enlarged request. */
  lemma ServedRoom(m: Memory, C: Chunks, end: int, S: seq<seq<int>>, Ts: seq<Trie>, p: int, nb: nat, a: nat)
    requires Heap(m, C, end, S, Ts) && p in Live(m, C) && nb + a + MIN_CHUNK_SIZE - 8 <= 8 * |Live(m, C)[p]|
    ensures p in C && nb + a + MIN_CHUNK_SIZE <= 8 * C[p].n
  {}

  lemma AlignedRequest(nb: nat, bytes: nat, words: nat)
    requires nb == Request2Size(bytes) && bytes < MAX_REQUEST && nb <= 8 * (words + 1)
    ensures bytes <= 8 * words
  {
    RequestExact(bytes);
  }

  /** The leader is a chunk, and at least nb bytes remain past it. */
  lemma LeaderRoom(base: nat, p: int, a: nat, nb: nat, n: nat, length: nat)
    requires base % 8 == 0 && p >= 0 && PowerOfTwo(a) && MIN_CHUNK_SIZE <= a <= SIZE_T_LIMIT / 2
    requires nb + a + MIN_CHUNK_SIZE <= 8 * n && p + n < length && base + 8 * length <= SIZE_T_LIMIT
    requires !Aligned(base + 8 * (p + 2), a) && nb >= MIN_CHUNK_SIZE
    ensures a <= SIZE_T_LIMIT
    ensures var lead := AlignedSpot(base + 8 * p, base + 8 * (p + 2), a) - (base + 8 * p);
      && lead % 8 == 0 && MIN_CHUNK_SIZE <= lead && lead + nb <= 8 * n && Aligned(base + 8 * (p + 2 + lead / 8), a)
  {
    hide Aligned, AlignedSpot;
    var j: nat :| a == Pow2(j);
    var w := 64;
    PowLimit(w);
    if j >= w { PowMonotone(w, j); }
    SpotExact(base + 8 * p, a, j);
  }

  /** Chunk q is the first from p on whose payload is aligned, but for those that would leave a
      leader that is no chunk. */
  ghost predicate FirstSpot(base: nat, p: int, a: nat, q: int) {
    && AlignedAt(base, a, q) && (q == p || q >= p + MIN_CHUNK_SIZE / 8)
    && forall s | p <= s < q && (s == p || s >= p + MIN_CHUNK_SIZE / 8) :: !AlignedAt(base, a, s)
  }

  predicate AlignedAt(base: nat, a: nat, s: int) { Aligned(base + 8 * (s + 2), a) }

  lemma SpotHere(base: nat, p: int, a: nat)
    requires Aligned(base + 8 * (p + 2), a)
    ensures FirstSpot(base, p, a, p)
  {}

  lemma NotBefore(base: nat, p: nat, a: nat, j: nat, s: int)
    requires base % 8 == 0 && a == Pow2(j) && 32 <= a && j < 64 && base + 8 * p + 16 + a <= SIZE_T_LIMIT && !Aligned(base + 8 * (p + 2), a)
    requires a <= SIZE_T_LIMIT && s >= p + MIN_CHUNK_SIZE / 8
    requires s < p + (AlignedSpot(base + 8 * p, base + 8 * (p + 2), a) - (base + 8 * p)) / 8
    ensures !AlignedAt(base, a, s)
  {
    hide Pow2, AlignedSpot, Aligned;
    if Aligned(base + 8 * (s + 2), a) { SpotFirst(base + 8 * p, a, j, base + 8 * (s + 2)); }
  }

  lemma LeaderFirst(base: nat, p: int, a: nat, n: nat, length: nat)
    requires base % 8 == 0 && p >= 0 && PowerOfTwo(a) && MIN_CHUNK_SIZE <= a <= SIZE_T_LIMIT / 2
    requires a + 2 * MIN_CHUNK_SIZE <= 8 * n && p + n < length && base + 8 * length <= SIZE_T_LIMIT
    requires !Aligned(base + 8 * (p + 2), a)
    ensures a <= SIZE_T_LIMIT
    ensures FirstSpot(base, p, a, p + (AlignedSpot(base + 8 * p, base + 8 * (p + 2), a) - (base + 8 * p)) / 8)
  {
    LeaderRoom(base, p, a, MIN_CHUNK_SIZE, n, length);
    hide Aligned, AlignedSpot, AlignedAt, Pow2;
    var j: nat :| a == Pow2(j);
    var w := 64;
    PowLimit(w);
    if j >= w { PowMonotone(w, j); }
    var q := p + (AlignedSpot(base + 8 * p, base + 8 * (p + 2), a) - (base + 8 * p)) / 8;
    forall s | p <= s < q && (s == p || s >= p + MIN_CHUNK_SIZE / 8) ensures !AlignedAt(base, a, s) {
      if s != p { NotBefore(base, p, a, j, s); }
    }
    SpotAligned(base, p, a, q);
  }

  lemma SpotAligned(base: nat, p: int, a: nat, q: int)
    requires Aligned(base + 8 * (p + 2 + (q - p)), a)
    ensures AlignedAt(base, a, q)
  {
    assert p + 2 + (q - p) == q + 2;
  }

  /** A tail has been cut off block p, or p was small enough; t is the tail or 0. */
  ghost predicate TailCut(b: BlockMap, c: BlockMap, p: int, nb: nat, t: int) {
    && p in c && nb <= 8 * (|c[p]| + 1) <= nb + MIN_CHUNK_SIZE
    && if t == 0 then c == b else p < t && CutOff(b, c, p, t - p)
  }

  lemma LiveMember(m: Memory, C: Chunks, end: int, S: seq<seq<int>>, Ts: seq<Trie>, p: int)
    requires Heap(m, C, end, S, Ts) && p in Live(m, C)
    ensures p in C && C[p].kind == InUse && p > 0 && C[p].n >= 4 && |Live(m, C)[p]| == C[p].n - 1
  {
    assert ChunkOK(C, end, p);
  }

  lemma LiveIs(m: Memory, C: Chunks, end: int, S: seq<seq<int>>, Ts: seq<Trie>, p: int)
    requires Heap(m, C, end, S, Ts) && p in C && C[p].kind == InUse && p > 0
    ensures p in Live(m, C) && |Live(m, C)[p]| == C[p].n - 1
  {
    assert ChunkOK(C, end, p);
  }

  lemma CutParts(b: BlockMap, c: BlockMap, p: int, k: nat)
    requires CutOff(b, c, p, k)
    ensures p in c && p + k in c && |c[p + k]| == |b[p]| - k
  {}

  lemma TailCutOff(b: BlockMap, c: BlockMap, p: int, nb: nat, t: int, size: nat)
    requires CutOff(b, c, p, nb / 8) && t == p + nb / 8 && nb % 8 == 0 && nb >= MIN_CHUNK_SIZE && p > 0
    ensures TailCut(b, c, p, nb, t)
  {}

  lemma TailParts(b: BlockMap, c: BlockMap, p: int, nb: nat, t: int)
    requires TailCut(b, c, p, nb, t) && t != 0
    ensures t in c && t != p
  {}

  lemma TailKeeps(b: BlockMap, c: BlockMap, p: int, nb: nat, t: int, q: int)
    requires TailCut(b, c, p, nb, t) && q in b && q != p
    ensures q in c && (t != 0 ==> t in c - {q})
  {
    assert t != 0 ==> q in c - {p, t};
  }

  /** Leader and trailer are gone again; only the aligned block has been added. */
  lemma AlignedBoth(b1: BlockMap, b2: BlockMap, b3: BlockMap, b5: BlockMap, p: int, k: nat, nb: nat, t: int)
    requires CutOff(b1, b2, p, k) && k > 0 && TailCut(b2, b3, p + k, nb, t)
    requires b5 == if t == 0 then b3 - {p} else b3 - {p} - {t}
    ensures p + k in b5 && b5[p + k] == b3[p + k] && b5 - {p + k} == b1 - {p} && p + k !in b1
  {
    assert b1 - {p} == b2 - {p, p + k};
    if t != 0 {
      assert b5 - {p + k} == (b3 - {p + k, t}) - {p};
    }
  }

  lemma AlignedTail(b1: BlockMap, b3: BlockMap, b5: BlockMap, p: int, nb: nat, t: int)
    requires TailCut(b1, b3, p, nb, t) && b5 == if t == 0 then b3 else b3 - {t}
    ensures p in b5 && b5[p] == b3[p] && b5 - {p} == b1 - {p}
  {
    if t != 0 { assert b5 - {p} == b3 - {p, t}; }
  }
}
