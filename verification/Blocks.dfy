/** The heap as its clients see it: a finite map from live blocks to their payload words. */
module Blocks {
  import opened Sizes
  import opened Layout
  import opened Tags
  import opened Bins
  import opened SmallOps
  import opened Moves
  import opened States
  import opened Freeing
  import opened Reshape

  /** A block is named by its chunk; the pointer the client holds is two words further on. */
  type BlockMap = map<int, seq<int>>

  ghost function Live(m: Memory, C: Chunks): BlockMap {
    map p | p in C && p != 0 && C[p].kind == InUse && C[p].n >= 4 :: Payload(m, C, p)
  }

  /** The first words of two payloads, as many as both have, agree. */
  predicate PrefixKept(s: seq<int>, t: seq<int>) {
    forall k | 0 <= k < |s| && k < |t| :: t[k] == s[k]
  }

  lemma SamePayload(m: Memory, w: Memory, C: Chunks, D: Chunks, p: int)
    requires p in C && p in D && C[p].n == D[p].n >= 4 && BodyKept(m, w, C, p)
    ensures Payload(w, D, p) == Payload(m, C, p)
  {
    forall k | 0 <= k < C[p].n - 1 ensures Payload(w, D, p)[k] == Payload(m, C, p)[k] {
      assert At(w, p + 2 + k) == At(m, p + 2 + k);
    }
  }

  /** mspace_malloc adds one block, of enough words, and changes no other. */
  lemma LiveServed(m: Memory, w: Memory, C: Chunks, D: Chunks, p: int, bytes: nat)
    requires Served(C, D, p, Request2Size(bytes)) && LiveKept(m, w, C) && p > 0 && bytes < MAX_REQUEST
    ensures p !in Live(m, C) && p in Live(w, D) && Live(w, D) - {p} == Live(m, C)
    ensures bytes <= 8 * |Live(w, D)[p]|
  {
    hide Request2Size, Payload;
    RequestExact(bytes);
    forall q | q in Live(m, C) ensures q in Live(w, D) && Live(w, D)[q] == Live(m, C)[q] {
      SamePayload(m, w, C, D, q);
    }
  }

  /** mspace_free removes one block and changes no other. */
  lemma LiveFreed(m: Memory, w: Memory, C: Chunks, D: Chunks, x: int)
    requires Freed(C, D, x) && LiveKeptBut(m, w, C, x)
    ensures Live(w, D) == Live(m, C) - {x}
  {
    hide Payload;
    forall q | q in Live(m, C) && q != x ensures q in Live(w, D) && Live(w, D)[q] == Live(m, C)[q] {
      SamePayload(m, w, C, D, q);
    }
  }

  /** Live blocks are aligned words inside the segment, past the malloc_state, and no two share
      a word, head words included. */
  lemma BlocksApart(m: Memory, C: Chunks, end: int, p: int, q: int)
    requires Tiled(C, end) && p in Live(m, C) && q in Live(m, C) && p < q
    ensures STATE_WORDS <= p && p + 1 + |Live(m, C)[p]| < q + 1 && q + 1 + |Live(m, C)[q]| <= end
  {
    assert ChunkOK(C, end, p) && ChunkOK(C, end, q) && Apart(C, p, q);
  }

  // ----- Conservation -----

  /** The words, from p to the end of the segment, of chunks that are in use, or that are not. */
  ghost function Words(C: Chunks, end: int, p: int, used: bool): nat
    requires Tiled(C, end) && p in C
    decreases end - p
  {
    assert ChunkOK(C, end, p);
    (if (C[p].kind == InUse) == used then C[p].n else 0) + if C[p].kind.Top? then 0 else Words(C, end, p + C[p].n, used)
  }

  /** In-use and free words always add up to the segment. */
  lemma {:induction false} Conserved(C: Chunks, end: int, p: int)
    requires Tiled(C, end) && p in C
    ensures Words(C, end, p, true) + Words(C, end, p, false) == end - p
    decreases end - p
  {
    assert ChunkOK(C, end, p);
    if !C[p].kind.Top? {
      Conserved(C, end, p + C[p].n);
    }
  }
}
