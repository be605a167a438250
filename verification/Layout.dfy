/** Chunks tile the segment: the boundary-tag view of the heap, word by word.

    Addresses count 8-byte words from the base of the segment; the chunk at address 0 holds
    the malloc_state and is never freed. Chunk p of n words owns the words p + 1 .. p + n: its
    head, then its payload, the last word of which is the prev_foot field of the next chunk. */
module Layout {

  /** A position in a tree bin: the bits taken from the root. */
  datatype Path = Root | Down(up: Path, bit: bool)

  /** Loose is a free chunk between being unlinked from its bin and being put to use. */
  datatype Kind = InUse | Small | Large(path: Path) | Dv | Top | Loose

  /** n counts words; pin says whether the chunk before this one is in use. */
  datatype Chunk = Chunk(n: nat, kind: Kind, pin: bool)

  type Chunks = map<int, Chunk>
  type Memory = seq<int>

  // The chunk of the malloc_state, in words and in bytes.
  const STATE_WORDS: nat := 119
  const STATE_SIZE: nat := 8 * STATE_WORDS

  function At(m: Memory, x: int): int { if 0 <= x < |m| then m[x] else 0 }

  predicate Free(c: Chunk) { c.kind != InUse }
  predicate Binned(c: Chunk) { c.kind.Small? || c.kind.Large? }

  // ----- Tiling -----

  ghost predicate ChunkOK(C: Chunks, end: int, p: int)
    requires p in C
  {
    var c := C[p];
    && 0 <= p
    && (p == 0 || STATE_WORDS <= p)
    && p + c.n <= end
    && (if c.kind.Top?
        then c.n >= 1 && p + c.n == end && c.pin
        else c.n >= 4 && p + c.n in C && C[p + c.n].pin == !Free(c))
    && (Free(c) ==> c.pin)
    && (Free(c) && !c.kind.Top? ==> C[p + c.n].kind == InUse)
    && (c.kind.Small? ==> c.n < 32)
    && (c.kind.Large? ==> c.n >= 32)
  }

  predicate Apart(C: Chunks, p: int, q: int)
    requires p in C && q in C
  {
    p == q || p + C[p].n <= q || q + C[q].n <= p
  }

  // The triggers keep the solver from chasing next chunks without end.
  ghost predicate Tiled(C: Chunks, end: int) {
    && 0 in C && C[0] == Chunk(STATE_WORDS, InUse, true)
    && (forall p {:trigger ChunkOK(C, end, p)} | p in C :: ChunkOK(C, end, p))
    && (forall p, q {:trigger Apart(C, p, q)} | p in C && q in C :: Apart(C, p, q))
  }

  /** Every chunk but the first has one that ends where it starts. */
  lemma {:induction false} FindPrev(C: Chunks, end: int, q: int, p: int) returns (r: int)
    requires Tiled(C, end) && q in C && p in C && q < p
    ensures r in C && r < p && r + C[r].n == p && !C[r].kind.Top?
    decreases p - q
  {
    assert ChunkOK(C, end, q) && ChunkOK(C, end, p) && Apart(C, q, p);
    if q + C[q].n == p {
      r := q;
    } else {
      r := FindPrev(C, end, q + C[q].n, p);
    }
  }

  // ----- Changing the tiling -----

  /** A free chunk becomes another kind of free chunk. */
  function Rekind(C: Chunks, p: int, k: Kind): Chunks
    requires p in C
  {
    C[p := C[p].(kind := k)]
  }

  lemma RekindTiled(C: Chunks, end: int, p: int, k: Kind)
    requires Tiled(C, end) && p in C && Free(C[p]) && !C[p].kind.Top?
    requires k != InUse && k != Top && (k.Small? ==> C[p].n < 32) && (k.Large? ==> C[p].n >= 32)
    ensures Tiled(Rekind(C, p, k), end)
  {
    var D := Rekind(C, p, k);
    assert ChunkOK(C, end, p);
    forall q | q in D ensures ChunkOK(D, end, q) {
      assert ChunkOK(C, end, q);
    }
    forall q, r | q in D && r in D ensures Apart(D, q, r) {
      assert Apart(C, q, r);
    }
  }

  /** The chunks from lo up to lo + n become one free chunk. */
  function Merge(C: Chunks, lo: int, n: nat, k: Kind): Chunks
  {
    var D := map x | x in C && (x < lo || lo + n <= x) :: C[x];
    var E := D[lo := Chunk(n, k, true)];
    if lo + n in D then E[lo + n := D[lo + n].(pin := false)] else E
  }

  ghost predicate CanMerge(C: Chunks, end: int, lo: int, n: nat, k: Kind) {
    && lo in C && 0 < lo && C[lo].pin && k != InUse
    && (if k == Top then n >= 1 && lo + n == end else n >= 4 && lo + n in C && C[lo + n].kind == InUse)
    && (k.Small? ==> n < 32) && (k.Large? ==> n >= 32)
  }

  lemma MergeChunkOK(C: Chunks, end: int, lo: int, n: nat, k: Kind, q: int)
    requires Tiled(C, end) && CanMerge(C, end, lo, n, k) && q in Merge(C, lo, n, k)
    ensures ChunkOK(Merge(C, lo, n, k), end, q)
  {
    assert ChunkOK(C, end, lo);
    if lo + n in C { assert ChunkOK(C, end, lo + n); }
    if q in C {
      assert ChunkOK(C, end, q) && Apart(C, q, lo);
      if lo + n in C { assert Apart(C, q, lo + n); }
    }
  }

  lemma MergeTiled(C: Chunks, end: int, lo: int, n: nat, k: Kind)
    requires Tiled(C, end) && CanMerge(C, end, lo, n, k)
    ensures Tiled(Merge(C, lo, n, k), end)
  {
    var D := Merge(C, lo, n, k);
    assert ChunkOK(C, end, lo) && ChunkOK(C, end, 0) && Apart(C, 0, lo);
    forall q | q in D ensures ChunkOK(D, end, q) {
      MergeChunkOK(C, end, lo, n, k, q);
    }
    forall q, r | q in D && r in D ensures Apart(D, q, r) {
      assert Apart(C, q, r) && ChunkOK(C, end, q) && ChunkOK(C, end, r);
      assert Apart(C, q, lo) && Apart(C, r, lo);
    }
  }

  /** Chunk p is cut in two, the first part k words long. */
  function Split(C: Chunks, p: int, k: nat, a: Kind, b: Kind): Chunks
    requires p in C && k <= C[p].n
  {
    var n := C[p].n;
    var D := C[p := Chunk(k, a, C[p].pin)][p + k := Chunk(n - k, b, a == InUse)];
    if p + n in C then D[p + n := C[p + n].(pin := b == InUse)] else D
  }

  ghost predicate CanSplit(C: Chunks, p: int, k: nat, a: Kind, b: Kind) {
    && p in C && p > 0 && 4 <= k && a == InUse
    && (if b == Top then C[p].kind == Top && k < C[p].n
        else b in {InUse, Dv, Loose} && C[p].kind != Top && k + 4 <= C[p].n && (b == InUse || C[p].kind != InUse))
  }

  lemma SplitChunkOK(C: Chunks, end: int, p: int, k: nat, a: Kind, b: Kind, q: int)
    requires Tiled(C, end) && CanSplit(C, p, k, a, b) && q in Split(C, p, k, a, b)
    ensures ChunkOK(Split(C, p, k, a, b), end, q)
  {
    assert ChunkOK(C, end, p);
    var n := C[p].n;
    if p + n in C { assert ChunkOK(C, end, p + n); }
    if q in C {
      assert ChunkOK(C, end, q) && Apart(C, q, p);
      if p + n in C { assert Apart(C, q, p + n); }
    }
  }

  lemma SplitTiled(C: Chunks, end: int, p: int, k: nat, a: Kind, b: Kind)
    requires Tiled(C, end) && CanSplit(C, p, k, a, b)
    ensures Tiled(Split(C, p, k, a, b), end)
  {
    var D := Split(C, p, k, a, b);
    assert ChunkOK(C, end, p) && ChunkOK(C, end, 0) && Apart(C, 0, p);
    forall q | q in D ensures ChunkOK(D, end, q) {
      SplitChunkOK(C, end, p, k, a, b, q);
    }
    forall q, r | q in D && r in D ensures Apart(D, q, r) {
      assert q in C && r in C ==> Apart(C, q, r);
      assert q in C ==> Apart(C, q, p);
      assert r in C ==> Apart(C, r, p);
    }
  }

  /** Chunk p changes between free and in use as a whole. */
  function Retake(C: Chunks, p: int, k: Kind): Chunks
    requires p in C
  {
    var D := C[p := C[p].(kind := k)];
    if p + C[p].n in C then D[p + C[p].n := C[p + C[p].n].(pin := k == InUse)] else D
  }

  lemma TakeTiled(C: Chunks, end: int, p: int)
    requires Tiled(C, end) && p in C && Free(C[p]) && !C[p].kind.Top?
    ensures Tiled(Retake(C, p, InUse), end)
  {
    var D := Retake(C, p, InUse);
    assert ChunkOK(C, end, p);
    forall q | q in D ensures ChunkOK(D, end, q) {
      assert ChunkOK(C, end, q) && Apart(C, p, q);
    }
    forall q, r | q in D && r in D ensures Apart(D, q, r) {
      assert Apart(C, q, r);
    }
  }
}
