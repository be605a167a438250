/** What the operations of an mspace keep and change, stated on values. */
module States {
  import opened BinMaps
  import opened Sizes
  import opened Layout
  import opened Tags
  import R = Rings
  import opened Paths
  import opened Bins
  import opened SmallOps
  import opened TreeOps
  import opened TreeUnlink
  import opened Search
  import opened Moves

  // ----- The registers of malloc_state -----

  /** A bin is marked exactly when it holds a chunk. */
  ghost predicate MapsOK(S: seq<seq<int>>, Ts: seq<Trie>, smallmap: bv32, treemap: bv32) {
    && |S| == 32 && |Ts| == 32
    && (forall i: nat | i < 32 :: Marked(smallmap, i) <==> S[i] != [])
    && (forall i: nat | i < 32 :: Marked(treemap, i) <==> Root in Ts[i])
  }

  ghost predicate DvOK(C: Chunks, dv: int, dvsize: int) {
    if dvsize == 0 then dv == 0 && forall a | a in C :: C[a].kind != Dv
    else dv in C && C[dv].kind == Dv && 8 * C[dv].n == dvsize && forall a | a in C && C[a].kind == Dv :: a == dv
  }

  ghost predicate TopOK(C: Chunks, top: int, topsize: int) {
    top in C && C[top].kind == Top && 8 * C[top].n == topsize
  }

  /** No chunk other than p is loose. */
  ghost predicate OnlyLoose(C: Chunks, p: int) { forall a | a in C && C[a].kind == Loose :: a == p }
  ghost predicate Settled(C: Chunks) { forall a | a in C :: C[a].kind != Loose }

  /** The free chunk p of C has become, or been cut to, a block in use of at least nb bytes and
      less than MIN_CHUNK_SIZE more; the other blocks in use are the same. */
  ghost predicate Served(C: Chunks, D: Chunks, p: int, nb: nat) {
    && p in C && Free(C[p]) && p in D && D[p].kind == InUse
    && nb <= 8 * D[p].n < nb + MIN_CHUNK_SIZE && D[p].n <= C[p].n
    && (forall a | a in C && C[a].kind == InUse :: a in D && D[a].kind == InUse && D[a].n == C[a].n)
    && (forall a | a in D && D[a].kind == InUse && a != p :: a in C && C[a].kind == InUse)
  }

  /** No tree chunk of at least nb bytes is smaller than n words. */
  ghost predicate NoneBetter(C: Chunks, nb: nat, n: nat) {
    forall a | a in C && C[a].kind.Large? :: 8 * C[a].n < nb || C[a].n >= n
  }

  /** No tree chunk has nb bytes. */
  ghost predicate NoTreeFit(C: Chunks, nb: nat) {
    forall a | a in C && C[a].kind.Large? :: 8 * C[a].n < nb
  }

  /** No small-bin chunk has nb bytes. */
  ghost predicate NoSmallFit(C: Chunks, nb: nat) {
    forall a | a in C && C[a].kind == Small :: 8 * C[a].n < nb
  }

  ghost predicate Unchanged(C: Chunks, D: Chunks, m: Memory, w: Memory) { D == C && w == m }

  /** Some free chunk fits: a chunk outside top of nb bytes, or a top of more. */
  ghost predicate CanServe(C: Chunks, bytes: nat) {
    bytes < MAX_REQUEST &&
    exists a | a in C && Free(C[a]) :: FitsIn(C[a], Request2Size(bytes))
  }

  predicate FitsIn(c: Chunk, nb: nat) { if c.kind == Top then 8 * c.n > nb else 8 * c.n >= nb }

  /** Among the free chunks that fit, p is one outside top of minimal size, or top itself when
      no other fits. */
  ghost predicate BestFit(C: Chunks, p: int, nb: nat) {
    && p in C && FitsIn(C[p], nb)
    && forall a | a in C && Free(C[a]) && C[a].kind != Top && FitsIn(C[a], nb) :: C[p].kind != Top && C[p].n <= C[a].n
  }

  /** No small-bin chunk has nb bytes, or up to 8 more. */
  ghost predicate NoNearFit(C: Chunks, nb: nat) {
    forall a | a in C && C[a].kind == Small :: 8 * C[a].n < nb || 8 * C[a].n > nb + 8
  }

  /** dv, if there is one, has less than nb bytes. */
  ghost predicate NoDvFit(C: Chunks, nb: nat) { forall a | a in C && C[a].kind == Dv :: 8 * C[a].n < nb }

  /** The free chunk that a small request gets, by its kind: a chunk of the least fitting small
      bin, but beyond the next bin only when dv does not fit; dv when the request's bin and the
      next are empty; the smallest tree chunk when no small chunk and not dv fits; top when
      nothing else does. */
  ghost predicate SmallChoice(C: Chunks, p: int, nb: nat) {
    && p in C && FitsIn(C[p], nb)
    && match C[p].kind
       case Small =>
         && (forall a | a in C && C[a].kind == Small && 8 * C[a].n >= nb :: C[p].n <= C[a].n)
         && (8 * C[p].n > nb + 8 ==> NoDvFit(C, nb))
       case Dv => NoNearFit(C, nb)
       case Large(_) => NoSmallFit(C, nb) && NoDvFit(C, nb) && NoneBetter(C, nb, C[p].n)
       case Top => NoSmallFit(C, nb) && NoDvFit(C, nb) && NoTreeFit(C, nb)
       case _ => false
  }

  /** The free chunk that malloc takes for a request. */
  ghost predicate Chosen(C: Chunks, p: int, bytes: nat) {
    if bytes <= MAX_SMALL_REQUEST then SmallChoice(C, p, Request2Size(bytes)) else BestFit(C, p, Request2Size(bytes))
  }

  /** What a small request served from chunk p of a bin does to dv: a remainder that makes a chunk
      becomes dv; otherwise dv stays. And p is the first chunk of its small bin. */
  ghost predicate SmallAfter(C: Chunks, S: seq<seq<int>>, p: int, nb: nat, dv: int, dvsize: int, dv': int, dvsize': int) {
    && p in C
    && (Binned(C[p]) ==>
          if 8 * C[p].n - nb < MIN_CHUNK_SIZE then dv' == dv && dvsize' == dvsize
          else dv' == p + nb / 8 && dvsize' == 8 * C[p].n - nb)
    && (C[p].kind == Small ==> C[p].n < |S| && S[C[p].n] != [] && S[C[p].n][0] == p)
  }

  lemma NotFromBin(C: Chunks, S: seq<seq<int>>, p: int, nb: nat, dv: int, dvsize: int, dv': int, dvsize': int)
    requires p in C && C[p].kind in {Dv, Top}
    ensures SmallAfter(C, S, p, nb, dv, dvsize, dv', dvsize')
  {}

  /** The bin of every small chunk is marked. */
  lemma SmallMarked(m: Memory, C: Chunks, end: int, S: seq<seq<int>>, Ts: seq<Trie>, sm: bv32, tm: bv32)
    requires Heap(m, C, end, S, Ts) && MapsOK(S, Ts, sm, tm)
    ensures forall a | a in C && C[a].kind == Small :: C[a].n < 32 && Marked(sm, C[a].n)
  {
    hide Marked;
    forall a | a in C && C[a].kind == Small ensures C[a].n < 32 && Marked(sm, C[a].n) {
      assert InSmallBin(C, S, a);
    }
  }

  lemma DvTooSmall(C: Chunks, dv: int, dvsize: int, nb: nat)
    requires DvOK(C, dv, dvsize) && dvsize < nb
    ensures NoDvFit(C, nb)
  {}

  /** p comes from small bin i, where all bins from the request's up to i are not marked. */
  lemma SmallChosen(C: Chunks, sm: bv32, p: int, nb: nat, i: nat)
    requires p in C && C[p].kind == Small && C[p].n == i && nb % 8 == 0 && nb <= 8 * i
    requires forall a | a in C && C[a].kind == Small :: C[a].n < 32 && Marked(sm, C[a].n)
    requires forall j: nat | SmallIndex(nb) <= j < i :: !Marked(sm, j)
    requires 8 * i > nb + 8 ==> NoDvFit(C, nb)
    ensures SmallChoice(C, p, nb)
  {
    hide Marked;
    forall a | a in C && C[a].kind == Small && 8 * C[a].n >= nb ensures C[p].n <= C[a].n {
      assert SmallIndex(nb) <= C[a].n;
    }
  }

  lemma LargeChosen(C: Chunks, D: Chunks, sm: bv32, p: int, nb: nat)
    requires Served(C, D, p, nb) && C[p].kind.Large? && NoDvFit(C, nb) && NoneBetter(C, nb, C[p].n)
    requires forall a | a in C && C[a].kind == Small :: C[a].n < 32 && Marked(sm, C[a].n)
    requires forall j: nat | SmallIndex(nb) <= j < 32 :: !Marked(sm, j)
    ensures SmallChoice(C, p, nb)
  {
    hide Marked;
    forall a | a in C && C[a].kind == Small ensures 8 * C[a].n < nb {
      assert SmallIndex(nb) > C[a].n;
    }
  }

  lemma NearMarked(C: Chunks, sm: bv32, nb: nat)
    requires forall a | a in C && C[a].kind == Small :: C[a].n < 32 && Marked(sm, C[a].n)
    requires nb % 8 == 0 && !Marked(sm, SmallIndex(nb)) && !Marked(sm, SmallIndex(nb) + 1)
    ensures NoNearFit(C, nb)
  {
    hide Marked;
    forall a | a in C && C[a].kind == Small ensures 8 * C[a].n < nb || 8 * C[a].n > nb + 8 {
      assert C[a].n != SmallIndex(nb) && C[a].n != SmallIndex(nb) + 1;
    }
  }

  lemma TailChosen(C: Chunks, dv: int, dvsize: nat, top: int, topsize: nat, nb: nat)
    requires DvOK(C, dv, dvsize) && TopOK(C, top, topsize) && nb > 0 && NoNearFit(C, nb)
    requires nb <= dvsize || (NoTreeFit(C, nb) && NoSmallFit(C, nb))
    ensures nb <= dvsize ==> SmallChoice(C, dv, nb)
    ensures dvsize < nb < topsize ==> SmallChoice(C, top, nb)
  {}

  /** Bin i now holds the list L; its bit is set or cleared to match. */
  lemma SmallMapStep(S: seq<seq<int>>, Ts: seq<Trie>, sm: bv32, tm: bv32, i: nat, L: seq<int>, sm': bv32)
    requires MapsOK(S, Ts, sm, tm) && i < 32
    requires sm' == if L == [] then BinMaps.Clear(sm, i) else if Marked(sm, i) then sm else BinMaps.Mark(sm, i)
    ensures MapsOK(S[i := L], Ts, sm', tm)
  {
    hide Marked, BinMaps.Mark, BinMaps.Clear;
    MarkClearExact(sm, i);
  }

  lemma TreeMapStep(S: seq<seq<int>>, Ts: seq<Trie>, sm: bv32, tm: bv32, i: nat, U: Trie, tm': bv32)
    requires MapsOK(S, Ts, sm, tm) && i < 32
    requires tm' == if Root !in U then BinMaps.Clear(tm, i) else if Marked(tm, i) then tm else BinMaps.Mark(tm, i)
    ensures MapsOK(S, Ts[i := U], sm, tm')
  {
    hide Marked, BinMaps.Mark, BinMaps.Clear;
    MarkClearExact(tm, i);
  }

  /** dv and top are where they were, when no dv or top chunk changed. */
  ghost predicate SameDvTop(C: Chunks, D: Chunks) {
    && (forall a | a in C && C[a].kind in {Dv, Top} :: a in D && D[a].kind == C[a].kind && D[a].n == C[a].n)
    && (forall a | a in D && D[a].kind in {Dv, Top} :: a in C && D[a].kind == C[a].kind)
  }

  lemma DvTopKept(C: Chunks, D: Chunks, dv: int, dvsize: int, top: int, topsize: int)
    requires DvOK(C, dv, dvsize) && TopOK(C, top, topsize) && SameDvTop(C, D)
    ensures DvOK(D, dv, dvsize) && TopOK(D, top, topsize)
  {}

  /** The segment as init_user_mstate leaves it: the malloc_state, then top. */
  function InitialChunks(words: nat): Chunks
    requires 8 * words > STATE_SIZE + TOP_FOOT_SIZE
  {
    map[0 := Chunk(STATE_WORDS, InUse, true), STATE_WORDS := Chunk(words - STATE_WORDS - TOP_FOOT_SIZE / 8, Top, true)]
  }

  /** The user holds no block. */
  ghost predicate NoBlocks(C: Chunks) { forall a | a in C && C[a].kind == InUse :: a == 0 }

  lemma InitialHeap(m: Memory, words: nat)
    requires 8 * words > STATE_SIZE + TOP_FOOT_SIZE && |m| == words
    requires At(m, 1) == STATE_SIZE + 3 && (forall j: nat | j < 32 :: At(m, TreeBinAt(j)) == 0)
    requires At(m, STATE_WORDS + 1) == 8 * words - STATE_SIZE - TOP_FOOT_SIZE + 1
    requires At(m, words - TOP_FOOT_SIZE / 8 + 1) == TOP_FOOT_SIZE
    ensures Heap(m, InitialChunks(words), words - TOP_FOOT_SIZE / 8, seq(32, i => []), seq(32, i => map[]))
  {
    var C, end := InitialChunks(words), words - TOP_FOOT_SIZE / 8;
    assert Tiled(C, end);
    assert Tagged(m, C, end);
    var S: seq<seq<int>>, Ts: seq<Trie> := seq(32, i => []), seq(32, i => map[]);
    forall i | 0 <= i < 32 ensures TreeOK(m, C, i, Ts[i]) {}
    assert SmallBinsOK(m, C, S) && TreeBinsOK(m, C, Ts);
  }

  lemma NoneMarked()
    ensures forall i: nat :: !Marked(0, i)
  {
    ZeroMeansNoneMarked(0);
    forall i: nat ensures !Marked(0, i) { if i >= 32 { NotMarkedBeyond(0, i); } }
  }

  lemma SteadyTree(m: Memory, C: Chunks, end: int, S: seq<seq<int>>, Ts: seq<Trie>, i: nat)
    requires Heap(m, C, end, S, Ts) && i < 32
    ensures |Ts| == 32 && TreeOK(m, C, i, Ts[i]) && Tiled(C, end) && Tagged(m, C, end)
  {}

  lemma HangRoot(m: Memory, C: Chunks, i: nat, T: Trie, q: Path, x: int)
    requires CanHang(m, C, i, T, q, x)
    ensures Root in T[q := [x]] && x in C && C[x].kind == Loose
  {
    if q != Root { RootIn(m, C, i, T, q.up); }
  }

  lemma LooseBounds(m: Memory, C: Chunks, end: int, x: int)
    requires Tiled(C, end) && Tagged(m, C, end) && x in C && C[x].n >= 32
    ensures x >= 0 && x + 7 < |m|
  {
    assert ChunkOK(C, end, x) && TagOK(m, C, x);
  }

  lemma HangAtRoot(m: Memory, C: Chunks, i: nat, T: Trie, x: int)
    requires Insertable(m, C, i, T, x) && Root !in T
    ensures CanHang(m, C, i, T, Root, x)
  {
    BinRange(i, 8 * C[x].n);
    EmptyOrRooted(m, C, i, T);
  }

  lemma SlotReads(m: Memory, v: Memory, C: Chunks, end: int, i: nat, T: Trie, x: int)
    requires Tiled(C, end) && Tagged(m, C, end) && TreeOK(m, C, i, T) && x in C && C[x].kind == Loose && Fresh(m, v, i, x) && i < 32
    ensures At(v, TreeBinAt(i)) == NodeAt(T, Root) && TreeBinAt(i) < |v| == |m|
  {
    assert ChunkOK(C, end, x) && ChunkOK(C, end, 0);
  }

  lemma InsertableParts(m: Memory, C: Chunks, i: nat, T: Trie, x: int)
    requires Insertable(m, C, i, T, x)
    ensures x in C && C[x].kind == Loose && C[x].n >= 32 && TreeOK(m, C, i, T)
  {}

  lemma SeekingParts(m: Memory, C: Chunks, i: nat, T: Trie, p: Path, x: int, k: nat)
    requires Seeking(m, C, i, T, p, x, k)
    ensures p in T && x in C
  {}

  lemma LargeBounds(m: Memory, C: Chunks, end: int, x: int)
    requires Tiled(C, end) && Tagged(m, C, end) && x in C && C[x].n >= 32
    ensures 0 <= x && x + 7 < |m| && 108 < |m|
  {
    assert ChunkOK(C, end, x) && TagOK(m, C, x) && TagOK(m, C, 0);
  }

  lemma ButBin(u: Memory, C: Chunks, i: nat, T: Trie, p: Path)
    requires TreeBut(u, C, i, T, p)
    ensures i < 32
  {}

  lemma DetachWrite(m: Memory, C: Chunks, end: int, i: nat, T: Trie, l: Path)
    requires Tiled(C, end) && Tagged(m, C, end) && TreeOK(m, C, i, T) && l in T && i < 32
    ensures NodeAt(T, l) != 0 && 0 <= LinkTo(i, T, l) < |m| && Detached(m, m[LinkTo(i, T, l) := 0], i, T, l)
  {
    ButFromTree(m, C, i, T, l);
    LeafWrites(m, C, end, i, T, l);
    NodeNull(m, C, end, i, T, l);
  }

  lemma RingOf(m: Memory, C: Chunks, i: nat, T: Trie, p: Path)
    requires TreeOK(m, C, i, T) && p in T
    ensures R.Ring(m, T[p])
  {
    TreeRing(m, C, i, T, p);
  }

  lemma UnbinnedDvTop(C: Chunks, D: Chunks, x: int, dv: int, dvsize: int, top: int, topsize: int)
    requires DvOK(C, dv, dvsize) && TopOK(C, top, topsize) && Unbinned(C, D, x) && C[x].kind.Large?
    ensures DvOK(D, dv, dvsize) && TopOK(D, top, topsize)
  {
    assert SameDvTop(C, D);
  }

  /** WhereLarge for a chunk whose place is already known. */
  lemma LargePlace(m: Memory, C: Chunks, end: int, S: seq<seq<int>>, Ts: seq<Trie>, x: int, i: nat, p: Path, k: nat)
    requires Heap(m, C, end, S, Ts) && x in C && C[x].kind.Large?
    requires i < 32 && C[x].kind == Large(p) && |Ts| == 32 && p in Ts[i] && k < |Ts[i][p]| && Ts[i][p][k] == x
    ensures TreeOK(m, C, i, Ts[i]) && Tiled(C, end) && Tagged(m, C, end)
    ensures C[x].n >= 32 && x >= STATE_WORDS && x + 7 < |m|
    ensures R.Fd(m, x) == R.Next(Ts[i][p], k) && R.Bk(m, x) == R.Prev(Ts[i][p], k)
    ensures At(m, x + 6) == if k == 0 then ParentAt(i, Ts[i], p) else 0
    ensures k == 0 ==> ParentAt(i, Ts[i], p) != 0
  {
    hide InBin, InRange;
    var j, q, l := WhereLarge(m, C, end, S, Ts, x);
    assert TreeOK(m, C, i, Ts[i]) by { SteadyTree(m, C, end, S, Ts, i); }
    TreeNode(m, C, i, Ts[i], p);
    TreeNode(m, C, j, Ts[j], q);
    OneHome(m, C, i, Ts[i], p, j, Ts[j], q, x);
    if k != l { RingDistinct(m, Ts[i][p], k, l); }
  }

  /** The root is vacant after the removal of leaf p exactly when p is the root. */
  lemma LeafRoot(m: Memory, C: Chunks, i: nat, T: Trie, p: Path)
    requires TreeOK(m, C, i, T) && p in T
    ensures Root in T && (Root in T - {p} <==> p != Root)
  {
    RootIn(m, C, i, T, p);
  }

  lemma LeafApart(m: Memory, C: Chunks, i: nat, T: Trie, p: Path, l: Path)
    requires TreeOK(m, C, i, T) && p in T && l in T && p != l && T[p] != [] && IsLeaf(T, l)
    ensures T[l] != [] && T[p][0] !in T[l]
    ensures T[l][0] == NodeAt(T, l) && NodeAt(T - {l}, p) == T[p][0] && ParentAt(i, T - {l}, p) == ParentAt(i, T, p)
    ensures Root in (T - {l})[p := T[l]] && Root in T
  {
    NodeAtMember(m, C, i, T, p);
    NodeAtMember(m, C, i, T, l);
    RootIn(m, C, i, T, p);
    assert p.Down? ==> p == Down(p.up, p.bit);
    if l == Root && p != Root { TopmostChild(m, C, i, T, p); }
  }

  lemma {:induction false} TopmostChild(m: Memory, C: Chunks, i: nat, T: Trie, p: Path)
    requires TreeOK(m, C, i, T) && p in T && p.Down?
    ensures Down(Root, false) in T || Down(Root, true) in T
    decreases p
  {
    hide TreeOK;
    if p.up == Root {
      assert p == Down(Root, p.bit);
    } else {
      TreePlaced(m, C, i, T, p);
      TopmostChild(m, C, i, T, p.up);
    }
  }

  lemma SplitDvTop(m: Memory, C: Chunks, end: int, S: seq<seq<int>>, Ts: seq<Trie>, p: int, k: nat)
    requires Heap(m, C, end, S, Ts) && p in C && C[p].kind == Loose && 4 <= k && k + 4 <= C[p].n
    ensures SameDvTop(C, Split(C, p, k, InUse, Loose))
    ensures p + k !in C
  {
    assert ChunkOK(C, end, p);
    assert forall a | a in C :: Apart(C, p, a);
  }

  lemma ServedWhole(m: Memory, C: Chunks, end: int, S: seq<seq<int>>, Ts: seq<Trie>, p: int, nb: nat)
    requires Heap(m, C, end, S, Ts) && p in C && C[p].kind == Loose && OnlyLoose(C, p)
    requires nb <= 8 * C[p].n < nb + MIN_CHUNK_SIZE
    ensures Served(C, Retake(C, p, InUse), p, nb) && Settled(Retake(C, p, InUse))
  {
    assert ChunkOK(C, end, p);
  }

  lemma ServedPart(m: Memory, C: Chunks, end: int, S: seq<seq<int>>, Ts: seq<Trie>, p: int, nb: nat)
    requires Heap(m, C, end, S, Ts) && p in C && C[p].kind == Loose && OnlyLoose(C, p)
    requires nb % 8 == 0 && nb >= MIN_CHUNK_SIZE && nb + MIN_CHUNK_SIZE <= 8 * C[p].n
    ensures var D, r := Split(C, p, nb / 8, InUse, Loose), p + nb / 8;
      Served(C, D, p, nb) && OnlyLoose(D, r) && r in D && D[r].kind == Loose && 8 * D[r].n == 8 * C[p].n - nb
  {
    assert ChunkOK(C, end, p);
    assert forall a | a in C :: Apart(C, p, a);
  }

  lemma ServedDv(C: Chunks, D: Chunks, p: int, nb: nat, dv: int, dvsize: int, r: int)
    requires Served(C, D, p, nb) && OnlyLoose(D, r) && r in D && D[r].kind == Loose && DvOK(D, dv, dvsize)
    ensures var E := Rekind(if dvsize == 0 then D else Rekind(D, dv, Small), r, Dv);
      Served(C, E, p, nb) && Settled(E)
  {}

  lemma LiveCompose(m: Memory, u: Memory, w: Memory, C: Chunks, D: Chunks, p: int, nb: nat)
    requires LiveKept(m, u, C) && LiveKept(u, w, D) && Served(C, D, p, nb)
    ensures LiveKept(m, w, C)
  {
    forall q | q in C && q != 0 && C[q].kind == InUse ensures BodyKept(m, w, C, q) {
      assert BodyKept(m, u, C, q) && BodyKept(u, w, D, q);
    }
  }

  lemma RightmostReads(m: Memory, C: Chunks, end: int, i: nat, T: Trie, p: Path)
    requires Tiled(C, end) && Tagged(m, C, end) && TreeOK(m, C, i, T) && p in T
    ensures var t := NodeAt(T, p);
      && 0 <= t && t + 7 < |m|
      && At(m, t + 4) == NodeAt(T, Down(p, false)) && At(m, t + 5) == NodeAt(T, Down(p, true))
    ensures forall b :: NodeAt(T, Down(p, b)) == 0 <==> Down(p, b) !in T
  {
    hide TreeOK;
    NodeReads(m, C, end, i, T, p);
    forall b ensures NodeAt(T, Down(p, b)) == 0 <==> Down(p, b) !in T {
      NodeNull(m, C, end, i, T, Down(p, b));
    }
  }

  lemma BinnedSize(m: Memory, C: Chunks, end: int, S: seq<seq<int>>, Ts: seq<Trie>, p: int)
    requires Heap(m, C, end, S, Ts) && p in C && Binned(C[p])
    ensures IsSmall(8 * C[p].n) <==> C[p].kind == Small
  {
    assert ChunkOK(C, end, p);
  }

  lemma ServedBin(C: Chunks, D: Chunks, p: int, nb: nat, r: int, k: Kind)
    requires Served(C, D, p, nb) && OnlyLoose(D, r) && r in D && D[r].kind == Loose && k != InUse && k != Loose
    ensures Served(C, Rekind(D, r, k), p, nb) && Settled(Rekind(D, r, k))
  {}

  lemma TreeMapBits(S: seq<seq<int>>, Ts: seq<Trie>, sm: bv32, tm: bv32)
    requires MapsOK(S, Ts, sm, tm)
    ensures |S| == 32 && |Ts| == 32
    ensures forall i: nat | i < 32 :: Marked(tm, i) <==> Root in Ts[i]
    ensures forall i: nat | i < 32 :: Marked(sm, i) <==> S[i] != []
  {}

  lemma BinsSteady(m: Memory, C: Chunks, end: int, S: seq<seq<int>>, Ts: seq<Trie>)
    requires Heap(m, C, end, S, Ts)
    ensures Tiled(C, end) && Tagged(m, C, end) && TreeBinsOK(m, C, Ts) && SmallBinsOK(m, C, S)
  {}

  lemma StateBounds(m: Memory, C: Chunks, end: int)
    requires Tiled(C, end) && Tagged(m, C, end)
    ensures |m| > STATE_WORDS
  {
    assert TagOK(m, C, 0);
  }

  lemma TreeSlot(m: Memory, C: Chunks, i: nat, T: Trie)
    requires TreeOK(m, C, i, T)
    ensures At(m, TreeBinAt(i)) == NodeAt(T, Root)
  {}

  /** The words and the size of the node at p, for a request below MIN_LARGE_SIZE. */
  lemma SmallStart(m: Memory, C: Chunks, end: int, i: nat, T: Trie, nb: nat)
    requires Tiled(C, end) && Tagged(m, C, end) && TreeOK(m, C, i, T) && Root in T && nb < MIN_LARGE_SIZE && i < 32
    ensures var t, rsize := NodeAt(T, Root), SizeAt(C, T, Root) - nb;
      && 0 <= t && t + 7 < |m| && ChunkSize(At(m, t + 1)) == nb + rsize && rsize >= 0
      && WalkPast(C, i, T, nb, rsize, Root) && Candidate(C, T, nb, rsize, t, Root)
  {
    hide TreeOK, Tiled, Tagged, WalkCovers, AllBeaten, InBin, InRange, SizeAt, ChunkSize, Lo;
    NodeReads(m, C, end, i, T, Root);
    AllExceed(m, C, i, T, nb);
    WalkStart(m, C, i, T, nb, SIZE_T_LIMIT);
    PlacedAt(m, C, i, T, Root);
    WalkStep(m, C, i, T, nb, SIZE_T_LIMIT, Root);
  }

  lemma SmallStep(m: Memory, C: Chunks, end: int, i: nat, T: Trie, nb: nat, rsize: nat, p: Path)
    requires Tiled(C, end) && Tagged(m, C, end) && TreeOK(m, C, i, T) && nb < MIN_LARGE_SIZE && i < 32
    requires p in T && LeftmostChild(T, p) in T && WalkPast(C, i, T, nb, rsize, p)
    ensures var c := LeftmostChild(T, p); var t, trem := NodeAt(T, c), SizeAt(C, T, c) - nb;
      && 0 <= t && t + 7 < |m| && ChunkSize(At(m, t + 1)) == nb + trem && trem >= 0
      && WalkPast(C, i, T, nb, if trem < rsize then trem else rsize, c)
      && Candidate(C, T, nb, trem, t, c)
      && 0 <= Open(i, c) < Open(i, p)
  {
    hide TreeOK, Tiled, Tagged, WalkCovers, AllBeaten, InBin, InRange, SizeAt, ChunkSize, Lo, Pow2, Width, NodeAt;
    var c := LeftmostChild(T, p);
    NodeReads(m, C, end, i, T, c);
    AllExceed(m, C, i, T, nb);
    PlacedAt(m, C, i, T, c);
    WalkStep(m, C, i, T, nb, rsize, c);
  }

  lemma UnbinnedLoose(C: Chunks, D: Chunks, x: int)
    requires Unbinned(C, D, x) && Settled(C)
    ensures OnlyLoose(D, x) && x in D && D[x].kind == Loose && D[x].n == C[x].n
  {}

  lemma ServedAfterUnlink(C: Chunks, D: Chunks, E: Chunks, x: int, nb: nat)
    requires Unbinned(C, D, x) && Binned(C[x]) && Served(D, E, x, nb)
    ensures Served(C, E, x, nb)
  {}

  lemma LiveAfterUnlink(m: Memory, u: Memory, w: Memory, C: Chunks, D: Chunks, x: int)
    requires LiveKept(m, u, C) && LiveKept(u, w, D) && Unbinned(C, D, x) && Binned(C[x])
    ensures LiveKept(m, w, C)
  {
    forall q | q in C && q != 0 && C[q].kind == InUse ensures BodyKept(m, w, C, q) {
      assert BodyKept(m, u, C, q) && BodyKept(u, w, D, q);
    }
  }

  lemma BestFits(C: Chunks, nb: nat, rsize: nat, n: nat)
    requires BestTreeFit(C, nb, rsize) && 8 * n == nb + rsize
    ensures NoneBetter(C, nb, n)
  {}

  lemma DvSubtract(dvsize: nat, nb: nat)
    requires dvsize < SIZE_T_LIMIT && 0 < nb < SIZE_T_LIMIT
    ensures Sub64(dvsize, nb) == if nb <= dvsize then dvsize - nb else SIZE_T_LIMIT - (nb - dvsize)
  {
    if dvsize < nb { Sub64Fit(dvsize, nb, 0); }
  }

  lemma NotNull(m: Memory, C: Chunks, end: int, S: seq<seq<int>>, Ts: seq<Trie>, v: int)
    requires Heap(m, C, end, S, Ts) && v in C && C[v].kind.Large?
    ensures v != 0
  {}

  lemma DvBound(m: Memory, C: Chunks, end: int, S: seq<seq<int>>, Ts: seq<Trie>, dv: int, dvsize: int)
    requires Heap(m, C, end, S, Ts) && DvOK(C, dv, dvsize) && 8 * end < SIZE_T_LIMIT
    ensures dvsize < SIZE_T_LIMIT && dvsize % 8 == 0
  {
    if dvsize != 0 { assert ChunkOK(C, end, dv); }
  }

  lemma DvIsBetter(m: Memory, C: Chunks, end: int, S: seq<seq<int>>, Ts: seq<Trie>, nb: nat, rsize: nat, v: int, dvsize: nat)
    requires Heap(m, C, end, S, Ts) && BestTreeFit(C, nb, rsize) && 8 * end < SIZE_T_LIMIT && dvsize % 8 == 0
    requires if v == 0 then rsize == SIZE_T_LIMIT - nb else nb + rsize < SIZE_T_LIMIT
    requires v != 0 ==> rsize >= if nb <= dvsize then dvsize - nb else SIZE_T_LIMIT - (nb - dvsize)
    ensures if nb <= dvsize then NoneBetter(C, nb, dvsize / 8) else NoTreeFit(C, nb)
  {
    forall a | a in C ensures 8 * C[a].n < SIZE_T_LIMIT {
      assert ChunkOK(C, end, a);
    }
  }

  lemma CanChainParts(m: Memory, C: Chunks, i: nat, T: Trie, p: Path, x: int)
    requires CanChain(m, C, i, T, p, x)
    ensures x in C && C[x].kind == Loose && C[x].n >= 32 && p in T
  {}

  lemma StateLength(m: Memory, C: Chunks, end: int, S: seq<seq<int>>, Ts: seq<Trie>)
    requires Heap(m, C, end, S, Ts)
    ensures |m| > STATE_WORDS
  {
    StateBounds(m, C, end);
  }

  lemma PositiveChunk(m: Memory, C: Chunks, end: int, S: seq<seq<int>>, Ts: seq<Trie>, p: int)
    requires Heap(m, C, end, S, Ts) && p in C && Free(C[p])
    ensures p > 0
  {
    assert ChunkOK(C, end, p);
  }

  lemma RekindUnbinned(C: Chunks, p: int)
    requires p in C && Binned(C[p])
    ensures Unbinned(C, Rekind(C, p, Loose), p)
  {}

  lemma DvIsSmall(nb: nat, dvsize: nat)
    requires dvsize < nb < MIN_LARGE_SIZE
    ensures IsSmall(dvsize)
  {}

  /** smallmap >> idx: its two low bits are bins idx and idx + 1, and it is zero exactly when no
      bin from idx on is marked. */
  lemma SmallBits(sm: bv32, idx: nat)
    requires idx < 32
    ensures var bits := Shr(sm, idx);
      && (BinMaps.And(bits, 3) != 0 <==> Marked(sm, idx) || Marked(sm, idx + 1))
      && (BinMaps.And(BinMaps.Not(bits), 1) != 0 <==> !Marked(sm, idx))
      && (bits == 0 <==> forall j: nat | idx <= j < 32 :: !Marked(sm, j))
      && !Marked(sm, 32)
  {
    hide BinMaps.And, BinMaps.Not, Shr, Idx2Bit, Marked;
    var bits := Shr(sm, idx);
    LowBits(bits);
    ShrExact(sm, idx, 0);
    ShrExact(sm, idx, 1);
    ZeroMeansNoneMarked(bits);
    forall j: nat ensures Marked(bits, j) <==> Marked(sm, idx + j) { ShrExact(sm, idx, j); }
    forall j: nat | j >= 32 ensures !Marked(sm, j) { NotMarkedBeyond(sm, j); }
    assert forall j: nat | idx <= j < 32 :: Marked(sm, j) == Marked(bits, j - idx);
  }

  lemma NotMarkedBeyond(m: bv32, j: nat)
    requires j >= 32
    ensures !Marked(m, j)
  {
    BitValues();
    ZeroStays(32, j);
    AndZero(m);
  }

  /** The marked bins strictly above idx. */
  lemma LeftSmallBits(sm: bv32, idx: nat)
    requires idx < 32 && Shr(sm, idx) != 0 && !Marked(sm, idx)
    ensures var left := BinMaps.And(Shl(Shr(sm, idx), idx), LeftBits(Idx2Bit(idx)));
      left != 0 && forall j: nat | j < 32 :: Marked(left, j) <==> idx < j && Marked(sm, j)
  {
    hide BinMaps.And, Shr, Shl, Idx2Bit, Marked, LeftBits;
    var bits := Shr(sm, idx);
    var back := Shl(bits, idx);
    AndComm(back, LeftBits(Idx2Bit(idx)));
    LeftBitsExact(back, idx);
    var left := BinMaps.And(back, LeftBits(Idx2Bit(idx)));
    forall j: nat | j < 32 ensures Marked(left, j) <==> idx < j && Marked(sm, j) {
      ShlExact(bits, idx, j);
      if idx <= j { ShrExact(sm, idx, j - idx); }
    }
    SmallBits(sm, idx);
    ZeroMeansNoneMarked(left);
  }

  lemma NothingBinned(m: Memory, C: Chunks, end: int, S: seq<seq<int>>, Ts: seq<Trie>, sm: bv32, tm: bv32, nb: nat)
    requires Heap(m, C, end, S, Ts) && MapsOK(S, Ts, sm, tm) && nb < MIN_LARGE_SIZE && nb % 8 == 0
    requires tm == 0 && forall j: nat | SmallIndex(nb) <= j < 32 :: !Marked(sm, j)
    ensures NoTreeFit(C, nb) && NoSmallFit(C, nb)
  {
    hide Marked;
    forall a | a in C && C[a].kind == Small ensures 8 * C[a].n < nb {
      assert InSmallBin(C, S, a);
    }
    forall a | a in C && C[a].kind.Large? ensures exists j: nat | j < 32 :: Root in Ts[j] {
      var j, q := LargeAt(m, C, end, Ts, a);
      RootIn(m, C, j, Ts[j], q);
    }
    ZeroMeansNoneMarked(tm);
  }

  lemma DvServed(m: Memory, C: Chunks, end: int, S: seq<seq<int>>, Ts: seq<Trie>, p: int, nb: nat, top: int, topsize: int)
    requires Heap(m, C, end, S, Ts) && p in C && C[p].kind == Dv && DvOK(C, p, 8 * C[p].n) && TopOK(C, top, topsize) && Settled(C)
    requires nb % 8 == 0 && nb >= MIN_CHUNK_SIZE && nb + MIN_CHUNK_SIZE <= 8 * C[p].n
    ensures var D, r := Split(C, p, nb / 8, InUse, Dv), p + nb / 8;
      Served(C, D, p, nb) && Settled(D) && DvOK(D, r, 8 * C[p].n - nb) && TopOK(D, top, topsize)
  {
    assert ChunkOK(C, end, p);
    assert forall a | a in C :: Apart(C, p, a);
  }

  lemma DvTaken(m: Memory, C: Chunks, end: int, S: seq<seq<int>>, Ts: seq<Trie>, p: int, nb: nat, top: int, topsize: int)
    requires Heap(m, C, end, S, Ts) && p in C && C[p].kind == Dv && DvOK(C, p, 8 * C[p].n) && TopOK(C, top, topsize) && Settled(C)
    requires nb <= 8 * C[p].n < nb + MIN_CHUNK_SIZE
    ensures var D := Retake(C, p, InUse); Served(C, D, p, nb) && Settled(D) && DvOK(D, 0, 0) && TopOK(D, top, topsize)
  {
    assert ChunkOK(C, end, p);
  }

  lemma TopServed(m: Memory, C: Chunks, end: int, S: seq<seq<int>>, Ts: seq<Trie>, p: int, nb: nat, dv: int, dvsize: int)
    requires Heap(m, C, end, S, Ts) && DvOK(C, dv, dvsize) && Settled(C) && p in C && C[p].kind == Top
    requires nb % 8 == 0 && MIN_CHUNK_SIZE <= nb < 8 * C[p].n
    ensures var D, r := Split(C, p, nb / 8, InUse, Top), p + nb / 8;
      Served(C, D, p, nb) && Settled(D) && DvOK(D, dv, dvsize) && TopOK(D, r, 8 * C[p].n - nb)
  {
    assert ChunkOK(C, end, p);
    assert forall a | a in C :: Apart(C, p, a);
  }

  lemma TopBound(m: Memory, C: Chunks, end: int, S: seq<seq<int>>, Ts: seq<Trie>, top: int, topsize: int)
    requires Heap(m, C, end, S, Ts) && TopOK(C, top, topsize) && 8 * end < SIZE_T_LIMIT
    ensures 0 < topsize < SIZE_T_LIMIT && topsize % 8 == 0
  {
    assert ChunkOK(C, end, top);
  }

  lemma PositiveServed(m: Memory, C: Chunks, end: int, S: seq<seq<int>>, Ts: seq<Trie>, D: Chunks, q: int, nb: nat, bytes: nat)
    requires Heap(m, C, end, S, Ts) && Served(C, D, q, nb) && nb == Request2Size(bytes) && bytes < MAX_REQUEST
    requires C[q].kind == Top ==> 8 * C[q].n > nb
    ensures q > 0 && CanServe(C, bytes)
  {
    PositiveChunk(m, C, end, S, Ts, q);
    assert FitsIn(C[q], nb);
  }

  lemma LargeIsBest(m: Memory, C: Chunks, end: int, S: seq<seq<int>>, Ts: seq<Trie>, dv: int, dvsize: nat, nb: nat, q: int, bytes: nat)
    requires Heap(m, C, end, S, Ts) && DvOK(C, dv, dvsize) && Settled(C) && nb >= MIN_LARGE_SIZE
    requires q in C && C[q].kind.Large? && 8 * C[q].n >= nb && NoneBetter(C, nb, C[q].n) && (nb <= dvsize ==> 8 * C[q].n < dvsize)
    ensures BestFit(C, q, nb)
  {
    forall a | a in C && Free(C[a]) && C[a].kind != Top && FitsIn(C[a], nb) ensures C[q].n <= C[a].n {
      assert ChunkOK(C, end, a);
    }
  }

  lemma NoTrees(m: Memory, C: Chunks, end: int, S: seq<seq<int>>, Ts: seq<Trie>, sm: bv32, tm: bv32, nb: nat, dvsize: nat)
    requires Heap(m, C, end, S, Ts) && MapsOK(S, Ts, sm, tm) && tm == 0
    ensures NoTreeFit(C, nb) && NoneBetter(C, nb, dvsize / 8)
  {
    hide Marked;
    forall a | a in C && C[a].kind.Large? ensures exists j: nat | j < 32 :: Root in Ts[j] {
      var j, q := LargeAt(m, C, end, Ts, a);
      RootIn(m, C, j, Ts[j], q);
    }
    ZeroMeansNoneMarked(tm);
  }

  /** What is known when the bins have been passed over. */
  ghost predicate BinsDone(C: Chunks, dvsize: nat, nb: nat, bytes: nat) {
    if bytes <= MAX_SMALL_REQUEST then nb <= dvsize || (NoTreeFit(C, nb) && NoSmallFit(C, nb))
    else if bytes >= MAX_REQUEST then nb == SIZE_T_LIMIT - 1
    else if nb <= dvsize then NoneBetter(C, nb, dvsize / 8) else NoTreeFit(C, nb)
  }

  lemma TailServes(m: Memory, C: Chunks, end: int, S: seq<seq<int>>, Ts: seq<Trie>, dv: int, dvsize: nat, top: int, topsize: nat,
                   nb: nat, bytes: nat)
    requires Heap(m, C, end, S, Ts) && DvOK(C, dv, dvsize) && TopOK(C, top, topsize) && Settled(C) && 8 * end < SIZE_T_LIMIT
    requires BinsDone(C, dvsize, nb, bytes) && (bytes < MAX_REQUEST ==> nb == Request2Size(bytes))
    ensures CanServe(C, bytes) <==> nb <= dvsize || nb < topsize
    ensures (nb <= dvsize || nb < topsize) && bytes > MAX_SMALL_REQUEST ==> BestFit(C, if nb <= dvsize then dv else top, nb)
    ensures nb <= dvsize || nb < topsize ==> bytes < MAX_REQUEST
    ensures nb > dvsize && nb < topsize ==> top in C && C[top].kind == Top && 8 * C[top].n > nb
    ensures nb <= dvsize ==> dv in C && C[dv].kind == Dv
  {
    DvBound(m, C, end, S, Ts, dv, dvsize);
    TopBound(m, C, end, S, Ts, top, topsize);
    assert ChunkOK(C, end, top);
    if bytes < MAX_REQUEST {
      RequestExact(bytes);
      hide Request2Size;
      if nb <= dvsize { assert FitsIn(C[dv], nb); }
      if nb < topsize { assert FitsIn(C[top], nb); }
      forall a | a in C && Free(C[a]) && FitsIn(C[a], nb)
        ensures nb <= dvsize || nb < topsize
        ensures bytes > MAX_SMALL_REQUEST && C[a].kind != Top ==> nb <= dvsize && C[dv].n <= C[a].n
      {
        assert ChunkOK(C, end, a);
        TopUnique(C, end, a, top);
      }
    }
  }

  lemma TopUnique(C: Chunks, end: int, a: int, b: int)
    requires Tiled(C, end) && a in C && b in C && C[b].kind == Top
    ensures C[a].kind == Top ==> a == b
  {
    assert ChunkOK(C, end, a) && ChunkOK(C, end, b) && Apart(C, a, b);
  }

  lemma LiveKeptSelf(m: Memory, C: Chunks)
    ensures LiveKept(m, m, C)
  {
    forall q | q in C ensures BodyKept(m, m, C, q) {}
  }

  lemma LiveKeptRekind(m: Memory, w: Memory, C: Chunks, p: int, k: Kind)
    requires p in C && Free(C[p]) && k != InUse && LiveKept(m, w, Rekind(C, p, k))
    ensures LiveKept(m, w, C)
  {
    forall q | q in C && q != 0 && C[q].kind == InUse ensures BodyKept(m, w, C, q) {
      assert BodyKept(m, w, Rekind(C, p, k), q);
    }
  }

  lemma ChunkBounds(m: Memory, C: Chunks, end: int, S: seq<seq<int>>, Ts: seq<Trie>, p: int)
    requires Heap(m, C, end, S, Ts) && p in C
    ensures 0 <= p && p + C[p].n + 1 < |m| && (C[p].kind != Top ==> C[p].n >= 4 && p + 4 < |m|)
    ensures C[p].kind.Large? ==> p + 7 < |m|
  {
    assert ChunkOK(C, end, p) && TagOK(m, C, p);
  }

  lemma FirstSmallBack(m: Memory, C: Chunks, end: int, S: seq<seq<int>>, Ts: seq<Trie>, i: nat)
    requires Heap(m, C, end, S, Ts) && i < 32 && S[i] != []
    ensures R.Bk(m, S[i][0]) == SmallBinAt(i)
    ensures R.Fd(m, S[i][0]) == SmallBinAt(i) || R.Clear(SmallBinAt(i), R.Fd(m, S[i][0]))
  {
    assert SmallBinOK(m, C, S[i], i);
    var r := SmallRing(i, S[i]);
    assert R.LinkAt(m, r, 1);
    assert |r| > 2 ==> R.Clear(r[0], r[2]);
  }

  lemma MapBit(S: seq<seq<int>>, Ts: seq<Trie>, sm: bv32, tm: bv32, i: nat)
    requires MapsOK(S, Ts, sm, tm) && i < 32
    ensures |S| == 32 && |Ts| == 32
    ensures Marked(sm, i) <==> S[i] != []
    ensures Marked(tm, i) <==> Root in Ts[i]
  {}

  lemma FirstNext(i: nat, L: seq<int>)
    ensures R.Next(SmallRing(i, L), 0) == if L == [] then SmallBinAt(i) else L[0]
  {
    if L == [] { assert SmallRing(i, L) == [SmallBinAt(i)]; }
  }
}
