/** Linking a free chunk into its tree bin: insert_large_chunk. */
module TreeOps {
  import opened Sizes
  import opened Layout
  import opened Tags
  import opened Rings
  import opened Paths
  import opened Bins
  import opened SmallOps

  // ----- What tree operations leave alone -----

  /** All small bins, when no small chunk and no list header was written. */
  lemma SmallBinsKeptByLinks(m: Memory, w: Memory, C: Chunks, D: Chunks, end: int, N: set<int>, S: seq<seq<int>>)
    requires Tiled(C, end) && SmallBinsOK(m, C, S) && LinksOnly(m, w, C, end, N)
    requires forall y | 11 <= y < 77 :: At(w, y) == At(m, y)
    requires forall a | a in C && C[a].kind == Small :: a !in N && a in D && Alike(C[a], D[a])
    requires forall a | a in D && D[a].kind == Small :: a in C && Alike(C[a], D[a])
    ensures SmallBinsOK(w, D, S)
  {
    hide Tiled, MemberKept;
    forall i | 0 <= i < 32 ensures SmallBinOK(w, D, S[i], i) {
      assert SmallBinOK(m, C, S[i], i);
      OtherSmallBin(m, w, C, D, end, N, S[i], i);
    }
    forall a | a in D && D[a].kind == Small ensures InSmallBin(D, S, a) {
      assert InSmallBin(C, S, a);
    }
  }

  /** A chunk is in one tree bin only, at one position only. */
  lemma OneHome(m: Memory, C: Chunks, i: nat, T: Trie, p: Path, j: nat, U: Trie, q: Path, a: int)
    requires i < 32 && j < 32 && p in T && q in U && NodeOK(m, C, i, T, p) && NodeOK(m, C, j, U, q)
    requires a in T[p] && a in U[q]
    ensures i == j && p == q
  {
    assert LargeMember(C, p, SizeAt(C, T, p), a) && LargeMember(C, q, SizeAt(C, U, q), a);
    var s := SizeAt(C, T, p);
    BinsOrdered(i, s, j, s);
    BinsOrdered(j, s, i, s);
  }

  /** Tree bin j, none of whose members nor its slot was written. */
  lemma OtherTree(m: Memory, w: Memory, C: Chunks, D: Chunks, end: int, N: set<int>, T: Trie, j: nat)
    requires Tiled(C, end) && TreeOK(m, C, j, T) && LinksOnly(m, w, C, end, N)
    requires At(w, TreeBinAt(j)) == At(m, TreeBinAt(j))
    requires forall p, k | p in T && 0 <= k < |T[p]| :: T[p][k] !in N && T[p][k] in D && (T[p][k] in C ==> Alike(C[T[p][k]], D[T[p][k]]))
    ensures TreeOK(w, D, j, T)
  {
    hide Tiled, MemberKept;
    forall p, k | p in T && 0 <= k < |T[p]| ensures MemberKept(m, w, C, D, T[p][k]) {
      assert NodeOK(m, C, j, T, p) && LargeMember(C, p, SizeAt(C, T, p), T[p][k]);
      MemberIsKept(m, w, C, D, end, N, T[p][k]);
    }
    TreeKept(m, w, C, D, j, T);
  }

  /** Node p after its tree links have been rewritten but its ring has not. */
  lemma NodeRebuilt(m: Memory, w: Memory, C: Chunks, D: Chunks, i: nat, T: Trie, U: Trie, p: Path)
    requires p in T && p in U && U[p] == T[p] && NodeOK(m, C, i, T, p) && |w| == |m|
    requires forall k | 0 <= k < |T[p]| :: T[p][k] in D && (T[p][k] in C ==> Alike(C[T[p][k]], D[T[p][k]]))
    requires forall k | 0 <= k < |T[p]| :: Fd(w, T[p][k]) == Fd(m, T[p][k]) && Bk(w, T[p][k]) == Bk(m, T[p][k])
    requires forall k | 1 <= k < |T[p]| :: ChainLinks(w, i, T[p][k])
    requires TreeLinks(w, i, U, p) && (p.Down? ==> p.up in U)
    ensures NodeOK(w, D, i, U, p) && SizeAt(D, U, p) == SizeAt(C, T, p)
  {
    var r := T[p];
    assert LargeMember(C, p, SizeAt(C, T, p), r[0]);
    forall k | 0 <= k < |r| ensures LargeMember(D, p, SizeAt(D, U, p), r[k]) {
      assert LargeMember(C, p, SizeAt(C, T, p), r[k]);
    }
    RingKept(m, w, r);
  }

  // ----- A new leaf -----

  /** The word that holds the pointer to position q: the bin's slot or a child word of q's parent. */
  function LinkTo(i: nat, T: Trie, q: Path): int {
    match q
    case Root => TreeBinAt(i)
    case Down(u, b) => NodeAt(T, u) + (if b then 5 else 4)
  }

  /** x is a chunk for bin i, and q is the vacant position where its size belongs. */
  ghost predicate CanHang(m: Memory, C: Chunks, i: nat, T: Trie, q: Path, x: int) {
    && x in C && C[x].kind == Loose && C[x].n >= 32 && 8 * C[x].n < SIZE_T_LIMIT
    && i < 32 && InBin(i, 8 * C[x].n) && InRange(i, q, 8 * C[x].n)
    && q !in T && (q.Down? ==> q.up in T) && TreeOK(m, C, i, T)
    && (forall p | p in T :: SizeAt(C, T, p) != 8 * C[x].n)
  }

  /** The words of a fresh tree node, and the one pointer to it. */
  ghost predicate Hung(m: Memory, w: Memory, i: nat, T: Trie, q: Path, x: int) {
    && |w| == |m| && At(w, LinkTo(i, T, q)) == x
    && Fd(w, x) == x && Bk(w, x) == x && At(w, x + 4) == 0 && At(w, x + 5) == 0
    && At(w, x + 6) == ParentAt(i, T, q) && At(w, x + 7) == i
    && (forall y | y != LinkTo(i, T, q) && !(x + 2 <= y <= x + 7) :: At(w, y) == At(m, y))
  }

  lemma NodeWhere(m: Memory, C: Chunks, end: int, i: nat, T: Trie, p: Path, k: nat)
    requires Tiled(C, end) && p in T && NodeOK(m, C, i, T, p) && k < |T[p]|
    ensures var a := T[p][k]; a in C && C[a].kind == Large(p) && C[a].n >= 32 && a >= STATE_WORDS && a + C[a].n <= end
  {
    assert LargeMember(C, p, SizeAt(C, T, p), T[p][k]);
    assert ChunkOK(C, end, T[p][k]);
  }

  lemma HangNode(m: Memory, w: Memory, C: Chunks, end: int, i: nat, T: Trie, q: Path, x: int, p: Path)
    requires Tiled(C, end) && CanHang(m, C, i, T, q, x) && Hung(m, w, i, T, q, x) && p in T
    ensures NodeOK(w, Rekind(C, x, Large(q)), i, T[q := [x]], p)
    ensures SizeAt(Rekind(C, x, Large(q)), T[q := [x]], p) == SizeAt(C, T, p)
  {
    hide InBin, InRange;
    var D, U := Rekind(C, x, Large(q)), T[q := [x]];
    assert NodeOK(m, C, i, T, p);
    if p.Down? { assert p.up in T; }
    if q.Down? { assert NodeOK(m, C, i, T, q.up); NodeWhere(m, C, end, i, T, q.up, 0); }
    assert ChunkOK(C, end, x);
    forall k | 0 <= k < |T[p]|
      ensures T[p][k] in D && (T[p][k] in C ==> Alike(C[T[p][k]], D[T[p][k]]))
      ensures Fd(w, T[p][k]) == Fd(m, T[p][k]) && Bk(w, T[p][k]) == Bk(m, T[p][k])
      ensures k >= 1 ==> ChainLinks(w, i, T[p][k])
    {
      NodeWhere(m, C, end, i, T, p, k);
      assert Apart(C, x, T[p][k]);
      if q.Down? { assert Apart(C, NodeAt(T, q.up), T[p][k]); }
      if k >= 1 { assert ChainLinks(m, i, T[p][k]); }
    }
    HangTreeLinks(m, w, C, end, i, T, q, x, p);
    NodeRebuilt(m, w, C, D, i, T, U, p);
  }

  lemma HangWords(m: Memory, w: Memory, C: Chunks, end: int, i: nat, T: Trie, q: Path, x: int, p: Path)
    requires Tiled(C, end) && CanHang(m, C, i, T, q, x) && Hung(m, w, i, T, q, x) && p in T
    ensures var t := NodeAt(T, p);
      && At(w, t + 4) == (if q == Down(p, false) then x else At(m, t + 4))
      && At(w, t + 5) == (if q == Down(p, true) then x else At(m, t + 5))
      && At(w, t + 6) == At(m, t + 6) && At(w, t + 7) == At(m, t + 7)
  {
    hide TreeLinks, Placed, Ring, InBin, InRange;
    assert NodeOK(m, C, i, T, p) && T[p] != [] by { TreeNode(m, C, i, T, p); }
    NodeWhere(m, C, end, i, T, p, 0);
    assert ChunkOK(C, end, x) && Apart(C, x, T[p][0]);
    if q.Down? {
      TreeNode(m, C, i, T, q.up);
      NodeWhere(m, C, end, i, T, q.up, 0);
      assert Apart(C, T[q.up][0], T[p][0]);
    }
  }

  lemma TreeNode(m: Memory, C: Chunks, i: nat, T: Trie, p: Path)
    requires TreeOK(m, C, i, T) && p in T
    ensures NodeOK(m, C, i, T, p) && T[p] != [] && TreeLinks(m, i, T, p)
  {
    assert NodeOK(m, C, i, T, p);
  }

  lemma LinksAfterHang(m: Memory, w: Memory, i: nat, T: Trie, q: Path, x: int, p: Path)
    requires p in T && q !in T && (p.Down? ==> p.up in T) && TreeLinks(m, i, T, p) && T[p] != []
    requires var t := NodeAt(T, p);
      && At(w, t + 4) == (if q == Down(p, false) then x else At(m, t + 4))
      && At(w, t + 5) == (if q == Down(p, true) then x else At(m, t + 5))
      && At(w, t + 6) == At(m, t + 6) && At(w, t + 7) == At(m, t + 7)
    ensures TreeLinks(w, i, T[q := [x]], p)
  {}

  lemma HangTreeLinks(m: Memory, w: Memory, C: Chunks, end: int, i: nat, T: Trie, q: Path, x: int, p: Path)
    requires Tiled(C, end) && CanHang(m, C, i, T, q, x) && Hung(m, w, i, T, q, x) && p in T
    ensures TreeLinks(w, i, T[q := [x]], p)
  {
    hide Tiled, Hung, Ring, InBin, InRange, SizeAt, TreeLinks;
    HangWords(m, w, C, end, i, T, q, x, p);
    TreeNode(m, C, i, T, p);
    LinksAfterHang(m, w, i, T, q, x, p);
  }

  lemma HungNode(m: Memory, w: Memory, C: Chunks, end: int, i: nat, T: Trie, q: Path, x: int)
    requires Tiled(C, end) && Tagged(m, C, end) && CanHang(m, C, i, T, q, x) && Hung(m, w, i, T, q, x)
    ensures NodeOK(w, Rekind(C, x, Large(q)), i, T[q := [x]], q)
    ensures SizeAt(Rekind(C, x, Large(q)), T[q := [x]], q) == 8 * C[x].n
  {
    hide InBin, InRange;
    assert ChunkOK(C, end, x);
    var U := T[q := [x]];
    forall b ensures Down(q, b) !in T {
      assert Down(q, b) in T ==> NodeOK(m, C, i, T, Down(q, b));
    }
    assert TreeLinks(w, i, U, q);
    assert LinkAt(w, [x], 0);
  }

  lemma HangTree(m: Memory, w: Memory, C: Chunks, end: int, i: nat, T: Trie, q: Path, x: int)
    requires Tiled(C, end) && Tagged(m, C, end) && CanHang(m, C, i, T, q, x) && Hung(m, w, i, T, q, x)
    ensures TreeOK(w, Rekind(C, x, Large(q)), i, T[q := [x]])
  {
    hide InBin, InRange, Tiled, Tagged, Hung, NodeOK;
    var D, U := Rekind(C, x, Large(q)), T[q := [x]];
    forall p | p in U ensures NodeOK(w, D, i, U, p) && SizeAt(D, U, p) == (if p == q then 8 * C[x].n else SizeAt(C, T, p)) {
      if p == q { HungNode(m, w, C, end, i, T, q, x); } else { HangNode(m, w, C, end, i, T, q, x, p); }
    }
    hide SizeAt;
    assert UniqueSizes(D, U);
    SlotWord(m, w, C, end, i, T, q, x);
  }

  lemma SlotWord(m: Memory, w: Memory, C: Chunks, end: int, i: nat, T: Trie, q: Path, x: int)
    requires Tiled(C, end) && CanHang(m, C, i, T, q, x) && Hung(m, w, i, T, q, x)
    ensures At(w, TreeBinAt(i)) == NodeAt(T[q := [x]], Root)
    ensures forall y | 11 <= y < TreeBinAt(i) || TreeBinAt(i) < y <= 108 :: At(w, y) == At(m, y)
  {
    hide InBin, InRange;
    assert ChunkOK(C, end, x);
    if q.Down? {
      assert NodeOK(m, C, i, T, q.up);
      NodeWhere(m, C, end, i, T, q.up, 0);
    }
  }

  function HangOwners(T: Trie, q: Path, x: int): set<int> { {x, if q.Down? then NodeAt(T, q.up) else 0} }

  lemma HangLinks(m: Memory, w: Memory, C: Chunks, end: int, i: nat, T: Trie, q: Path, x: int)
    requires Tiled(C, end) && CanHang(m, C, i, T, q, x) && Hung(m, w, i, T, q, x)
    ensures LinksOnly(m, w, C, end, HangOwners(T, q, x))
  {
    hide InBin, InRange;
    var N := HangOwners(T, q, x);
    if q.Down? {
      assert NodeOK(m, C, i, T, q.up);
      NodeWhere(m, C, end, i, T, q.up, 0);
    }
    assert LinkWord(C, if q.Down? then NodeAt(T, q.up) else 0, LinkTo(i, T, q));
    forall y | !LinkWordOf(C, N, y) ensures At(w, y) == At(m, y) {
      assert LinkWord(C, x, y) ==> LinkWordOf(C, N, y);
    }
    LinksFrom(m, w, C, end, N);
  }

  // ----- From one changed tree to the whole heap -----

  /** a is a loose chunk or a chunk of tree bin i. */
  ghost predicate OfBin(C: Chunks, i: nat, a: int) {
    a in C && (C[a].kind == Loose || (C[a].kind.Large? && InBin(i, 8 * C[a].n)))
  }

  /** Only loose chunks and chunks of bin i have changed kind. */
  ghost predicate BinChange(C: Chunks, D: Chunks, i: nat) {
    && C.Keys == D.Keys
    && (forall a | a in C && !OfBin(C, i, a) :: D[a] == C[a])
    && (forall a | OfBin(C, i, a) ::
          D[a].n == C[a].n && D[a].pin == C[a].pin && (D[a].kind == Loose || (D[a].kind.Large? && C[a].n >= 32 && InBin(i, 8 * C[a].n))))
  }

  ghost predicate Housed(D: Chunks, i: nat, U: Trie, a: int)
    requires a in D && D[a].kind.Large?
  {
    InBin(i, 8 * D[a].n) ==> D[a].kind.path in U && a in U[D[a].kind.path]
  }

  lemma BinChangeTiled(C: Chunks, D: Chunks, end: int, i: nat)
    requires Tiled(C, end) && BinChange(C, D, i)
    ensures Tiled(D, end)
  {
    forall q | q in D ensures ChunkOK(D, end, q) {
      assert ChunkOK(C, end, q);
      assert !OfBin(C, i, q) ==> D[q] == C[q];
      assert q + C[q].n in C ==> (!OfBin(C, i, q + C[q].n) ==> D[q + C[q].n] == C[q + C[q].n]);
    }
    forall q, r | q in D && r in D ensures Apart(D, q, r) {
      assert Apart(C, q, r);
    }
  }

  lemma BinChangeTagged(m: Memory, C: Chunks, D: Chunks, end: int, i: nat)
    requires Tagged(m, C, end) && BinChange(C, D, i)
    ensures Tagged(m, D, end)
  {
    forall q | q in D ensures TagOK(m, D, q) {
      assert TagOK(m, C, q);
    }
  }

  lemma BinChangeTrees(m: Memory, w: Memory, C: Chunks, D: Chunks, end: int, Ts: seq<Trie>, i: nat, U: Trie, N: set<int>)
    requires Tiled(C, end) && TreeBinsOK(m, C, Ts) && LinksOnly(m, w, C, end, N) && i < 32 && TreeOK(w, D, i, U)
    requires forall a | a in N :: a == 0 || OfBin(C, i, a)
    requires forall y | 77 <= y <= 108 && y != TreeBinAt(i) :: At(w, y) == At(m, y)
    requires BinChange(C, D, i) && forall a | a in D && D[a].kind.Large? :: Housed(D, i, U, a)
    ensures TreeBinsOK(w, D, Ts[i := U])
  {
    hide LinksOnly, InBin, NodeOK, UniqueSizes;
    var Us := Ts[i := U];
    forall j | 0 <= j < 32 ensures TreeOK(w, D, j, Us[j]) {
      if j != i {
        assert TreeOK(m, C, j, Ts[j]);
        forall p, k | p in Ts[j] && 0 <= k < |Ts[j][p]|
          ensures var a := Ts[j][p][k]; a in C && !OfBin(C, i, a) && a != 0
        {
          NotOfBin(m, C, end, i, j, Ts[j], p, k);
        }
        OtherTree(m, w, C, D, end, N, Ts[j], j);
      }
    }
    forall a | a in D && D[a].kind.Large? ensures InTreeBin(D, Us, a) {
      assert Housed(D, i, U, a);
      LargeSize(w, C, D, end, i, a);
      TreeIndexUnique(i, 8 * D[a].n);
      if !InBin(i, 8 * D[a].n) {
        assert InTreeBin(C, Ts, a);
      }
    }
  }

  lemma LargeSize(m: Memory, C: Chunks, D: Chunks, end: int, i: nat, a: int)
    requires Tiled(C, end) && BinChange(C, D, i) && a in D && D[a].kind.Large?
    ensures 8 * D[a].n >= MIN_LARGE_SIZE
    ensures OfBin(C, i, a) && C[a].kind.Large? ==> InBin(i, 8 * C[a].n)
  {
    assert ChunkOK(C, end, a);
    assert !OfBin(C, i, a) ==> D[a] == C[a];
  }

  lemma NotOfBin(m: Memory, C: Chunks, end: int, i: nat, j: nat, T: Trie, p: Path, k: nat)
    requires Tiled(C, end) && TreeOK(m, C, j, T) && i < 32 && j < 32 && i != j && p in T && k < |T[p]|
    ensures var a := T[p][k]; a in C && !OfBin(C, i, a) && a != 0
  {
    var a := T[p][k];
    assert NodeOK(m, C, j, T, p) && LargeMember(C, p, SizeAt(C, T, p), a);
    NodeWhere(m, C, end, j, T, p, k);
    var s := 8 * C[a].n;
    hide InBin;
    if InBin(i, s) {
      BinsOrdered(i, s, j, s);
      BinsOrdered(j, s, i, s);
    }
  }

  /** A valid new tree for bin i, linked by writes inside bin i only, makes a valid heap. */
  lemma TreeChanged(m: Memory, w: Memory, C: Chunks, D: Chunks, end: int, S: seq<seq<int>>, Ts: seq<Trie>, i: nat, U: Trie, N: set<int>)
    requires Heap(m, C, end, S, Ts) && LinksOnly(m, w, C, end, N) && i < 32 && TreeOK(w, D, i, U)
    requires forall a | a in N :: a == 0 || OfBin(C, i, a)
    requires forall y | 11 <= y <= 108 && y != TreeBinAt(i) :: At(w, y) == At(m, y)
    requires BinChange(C, D, i) && forall a | a in D && D[a].kind.Large? :: Housed(D, i, U, a)
    ensures Heap(w, D, end, S, Ts[i := U])
    ensures LiveKept(m, w, C)
  {
    hide Tiled, Tagged, TreeBinsOK, SmallBinsOK, LinksOnly, TreeOK, InBin;
    BinChangeTiled(C, D, end, i);
    LinksTagged(m, w, C, end, N);
    BinChangeTagged(w, C, D, end, i);
    SmallBinsKeptByLinks(m, w, C, D, end, N, S);
    BinChangeTrees(m, w, C, D, end, Ts, i, U, N);
    LinksLive(m, w, C, end, N);
  }

  lemma LeafChange(m: Memory, C: Chunks, end: int, i: nat, T: Trie, q: Path, x: int)
    requires Tiled(C, end) && CanHang(m, C, i, T, q, x)
    ensures BinChange(C, Rekind(C, x, Large(q)), i)
    ensures forall a | a in HangOwners(T, q, x) :: a == 0 || OfBin(C, i, a)
  {
    hide InBin, InRange;
    forall a | OfBin(C, i, a) && C[a].kind.Large? ensures C[a].n >= 32 {
      assert ChunkOK(C, end, a);
    }
    if q.Down? {
      TreeNode(m, C, i, T, q.up);
      OwnMember(m, C, i, T, q.up, 0);
    }
  }

  /** insert_large_chunk into a vacant position: the trie gains exactly the ring [x] there. */
  lemma InsertLeaf(m: Memory, w: Memory, C: Chunks, end: int, S: seq<seq<int>>, Ts: seq<Trie>, i: nat, q: Path, x: int)
    requires Heap(m, C, end, S, Ts) && i < 32 && CanHang(m, C, i, Ts[i], q, x) && Hung(m, w, i, Ts[i], q, x)
    ensures Heap(w, Rekind(C, x, Large(q)), end, S, Ts[i := Ts[i][q := [x]]])
    ensures LiveKept(m, w, C)
  {
    var D, U := Rekind(C, x, Large(q)), Ts[i][q := [x]];
    hide Tagged, LinksOnly, Tiled, SmallBinsOK, InBin, InRange, Hung, TreeOK, BinChange;
    HangLinks(m, w, C, end, i, Ts[i], q, x);
    HangTree(m, w, C, end, i, Ts[i], q, x);
    SlotWord(m, w, C, end, i, Ts[i], q, x);
    LeafChange(m, C, end, i, Ts[i], q, x);
    forall a | a in D && D[a].kind.Large? ensures Housed(D, i, U, a) {
      if a != x { HousedBefore(m, C, S, Ts, end, i, a); }
    }
    TreeChanged(m, w, C, D, end, S, Ts, i, U, HangOwners(Ts[i], q, x));
  }

  lemma OwnMember(m: Memory, C: Chunks, i: nat, T: Trie, p: Path, k: nat)
    requires TreeOK(m, C, i, T) && p in T && k < |T[p]|
    ensures OfBin(C, i, T[p][k])
  {
    assert NodeOK(m, C, i, T, p) && LargeMember(C, p, SizeAt(C, T, p), T[p][k]);
  }

  lemma HousedBefore(m: Memory, C: Chunks, S: seq<seq<int>>, Ts: seq<Trie>, end: int, i: nat, a: int)
    requires Heap(m, C, end, S, Ts) && i < 32 && a in C && C[a].kind.Large?
    ensures Housed(C, i, Ts[i], a)
  {
    assert ChunkOK(C, end, a) && InTreeBin(C, Ts, a);
    TreeIndexUnique(i, 8 * C[a].n);
  }

  // ----- One more chunk of a size already there -----

  /** x has the size of position p of bin i. */
  ghost predicate CanChain(m: Memory, C: Chunks, i: nat, T: Trie, p: Path, x: int) {
    && x in C && C[x].kind == Loose && C[x].n >= 32 && i < 32
    && TreeOK(m, C, i, T) && p in T && SizeAt(C, T, p) == 8 * C[x].n
  }

  /** x is linked behind the tree node of p, as a chunk without tree links. */
  ghost predicate Chained(m: Memory, w: Memory, i: nat, T: Trie, p: Path, x: int)
    requires p in T && T[p] != []
  {
    && |w| == |m| && Ring(w, InsertAfter(T[p], x)) && ChainLinks(w, i, x)
    && (forall y | y != T[p][0] + 2 && y != Next(T[p], 0) + 3 && !(x + 2 <= y <= x + 7) :: At(w, y) == At(m, y))
  }

  function ChainOwners(T: Trie, p: Path, x: int): set<int>
    requires p in T && T[p] != []
  {
    {x, T[p][0], Next(T[p], 0)}
  }

  lemma ChainFacts(m: Memory, C: Chunks, end: int, i: nat, T: Trie, p: Path, x: int)
    requires Tiled(C, end) && CanChain(m, C, i, T, p, x)
    ensures NodeOK(m, C, i, T, p) && T[p] != [] && x >= STATE_WORDS
    ensures var f := Next(T[p], 0); f in T[p] && f in C && f >= STATE_WORDS && C[f].kind == Large(p) && C[f].n >= 32
    ensures var t := T[p][0]; t in C && t >= STATE_WORDS && C[t].kind == Large(p) && C[t].n >= 32
  {
    hide InBin, InRange;
    TreeNode(m, C, i, T, p);
    NodeWhere(m, C, end, i, T, p, 0);
    if |T[p]| > 1 { NodeWhere(m, C, end, i, T, p, 1); }
    assert ChunkOK(C, end, x);
  }

  lemma ChainLinked(m: Memory, w: Memory, C: Chunks, end: int, i: nat, T: Trie, p: Path, x: int)
    requires Tiled(C, end) && CanChain(m, C, i, T, p, x) && T[p] != [] && Chained(m, w, i, T, p, x)
    ensures LinksOnly(m, w, C, end, ChainOwners(T, p, x))
    ensures forall y | 11 <= y <= 108 :: At(w, y) == At(m, y)
  {
    hide Tiled, TreeOK, NodeOK, Ring, SizeAt, ChainLinks;
    ChainFacts(m, C, end, i, T, p, x);
    var N := ChainOwners(T, p, x);
    forall y | !LinkWordOf(C, N, y) ensures At(w, y) == At(m, y) {
      assert LinkWord(C, x, y) ==> LinkWordOf(C, N, y);
      assert LinkWord(C, T[p][0], y) ==> LinkWordOf(C, N, y);
      assert LinkWord(C, Next(T[p], 0), y) ==> LinkWordOf(C, N, y);
    }
    LinksFrom(m, w, C, end, N);
  }

  /** A node q of the tree other than p. */
  lemma ChainOther(m: Memory, w: Memory, C: Chunks, end: int, i: nat, T: Trie, p: Path, x: int, q: Path)
    requires Tiled(C, end) && CanChain(m, C, i, T, p, x) && T[p] != [] && Chained(m, w, i, T, p, x)
    requires q in T && q != p
    ensures NodeOK(w, Rekind(C, x, Large(p)), i, T[p := InsertAfter(T[p], x)], q)
    ensures SizeAt(Rekind(C, x, Large(p)), T[p := InsertAfter(T[p], x)], q) == SizeAt(C, T, q)
  {
    hide InBin, InRange, Tiled;
    var D, U, N := Rekind(C, x, Large(p)), T[p := InsertAfter(T[p], x)], ChainOwners(T, p, x);
    ChainLinked(m, w, C, end, i, T, p, x);
    ChainFacts(m, C, end, i, T, p, x);
    TreeNode(m, C, i, T, q);
    forall k | 0 <= k < |T[q]| ensures MemberKept(m, w, C, D, T[q][k]) {
      NodeWhere(m, C, end, i, T, q, k);
      MemberIsKept(m, w, C, D, end, N, T[q][k]);
    }
    NodeRebuilt(m, w, C, D, i, T, U, q);
  }

  /** The node of p itself, now with x second in its ring. */
  lemma ChainNode(m: Memory, w: Memory, C: Chunks, end: int, i: nat, T: Trie, p: Path, x: int)
    requires Tiled(C, end) && CanChain(m, C, i, T, p, x) && T[p] != [] && Chained(m, w, i, T, p, x)
    ensures NodeOK(w, Rekind(C, x, Large(p)), i, T[p := InsertAfter(T[p], x)], p)
    ensures SizeAt(Rekind(C, x, Large(p)), T[p := InsertAfter(T[p], x)], p) == SizeAt(C, T, p)
  {
    hide InBin, InRange, Ring, TreeOK;
    var D, r := Rekind(C, x, Large(p)), T[p];
    var s := InsertAfter(r, x);
    ChainFacts(m, C, end, i, T, p, x);
    assert LargeMember(C, p, SizeAt(C, T, p), r[0]);
    forall k | 0 <= k < |s|
      ensures LargeMember(D, p, 8 * C[x].n, s[k])
      ensures k >= 1 ==> ChainLinks(w, i, s[k])
    {
      if k != 1 {
        var j := if k == 0 then 0 else k - 1;
        assert s[k] == r[j] && LargeMember(C, p, SizeAt(C, T, p), r[j]);
        if k > 1 { ChainWords(m, w, C, end, i, T, p, x, j); }
      }
    }
    ChainWords(m, w, C, end, i, T, p, x, 0);
    assert TreeLinks(w, i, T[p := s], p);
  }

  lemma ChainWords(m: Memory, w: Memory, C: Chunks, end: int, i: nat, T: Trie, p: Path, x: int, j: nat)
    requires Tiled(C, end) && CanChain(m, C, i, T, p, x) && T[p] != [] && Chained(m, w, i, T, p, x) && j < |T[p]|
    ensures var a := T[p][j];
      && At(w, a + 4) == At(m, a + 4) && At(w, a + 5) == At(m, a + 5)
      && At(w, a + 6) == At(m, a + 6) && At(w, a + 7) == At(m, a + 7)
    ensures j >= 1 ==> ChainLinks(w, i, T[p][j])
  {
    hide InBin, InRange, Ring;
    ChainFacts(m, C, end, i, T, p, x);
    var a := T[p][j];
    NodeWhere(m, C, end, i, T, p, j);
    assert Apart(C, a, x) && Apart(C, a, T[p][0]) && Apart(C, a, Next(T[p], 0)) && ChunkOK(C, end, x);
    if j >= 1 { assert ChainLinks(m, i, a); }
  }

  lemma ChainTree(m: Memory, w: Memory, C: Chunks, end: int, i: nat, T: Trie, p: Path, x: int)
    requires Tiled(C, end) && CanChain(m, C, i, T, p, x) && T[p] != [] && Chained(m, w, i, T, p, x)
    ensures TreeOK(w, Rekind(C, x, Large(p)), i, T[p := InsertAfter(T[p], x)])
  {
    hide InBin, InRange, Chained, NodeOK, SizeAt, Tiled;
    var D, U := Rekind(C, x, Large(p)), T[p := InsertAfter(T[p], x)];
    forall q | q in U ensures NodeOK(w, D, i, U, q) && SizeAt(D, U, q) == SizeAt(C, T, q) {
      if q == p { ChainNode(m, w, C, end, i, T, p, x); } else { ChainOther(m, w, C, end, i, T, p, x, q); }
    }
    ChainLinked(m, w, C, end, i, T, p, x);
  }

  /** insert_large_chunk when the size is present: the ring at p gains exactly x. */
  lemma InsertChain(m: Memory, w: Memory, C: Chunks, end: int, S: seq<seq<int>>, Ts: seq<Trie>, i: nat, p: Path, x: int)
    requires Heap(m, C, end, S, Ts) && i < 32 && CanChain(m, C, i, Ts[i], p, x)
    requires Ts[i][p] != [] && Chained(m, w, i, Ts[i], p, x)
    ensures Heap(w, Rekind(C, x, Large(p)), end, S, Ts[i := Ts[i][p := InsertAfter(Ts[i][p], x)]])
    ensures LiveKept(m, w, C)
  {
    var T := Ts[i];
    var D, U := Rekind(C, x, Large(p)), T[p := InsertAfter(T[p], x)];
    hide Tagged, LinksOnly, Tiled, SmallBinsOK, InBin, InRange, Chained, TreeOK, BinChange, NodeOK;
    ChainLinked(m, w, C, end, i, T, p, x);
    ChainTree(m, w, C, end, i, T, p, x);
    ChainChange(m, C, end, i, T, p, x);
    forall a | a in D && D[a].kind.Large? ensures Housed(D, i, U, a) {
      if a != x {
        HousedBefore(m, C, S, Ts, end, i, a);
        InInsertAfter(T[p], x, a);
      }
    }
    TreeChanged(m, w, C, D, end, S, Ts, i, U, ChainOwners(T, p, x));
  }

  lemma InInsertAfter(r: seq<int>, x: int, a: int)
    requires |r| >= 1
    ensures a in InsertAfter(r, x) <==> a == x || a in r
  {
    assert r == [r[0]] + r[1..];
  }

  lemma ChainChange(m: Memory, C: Chunks, end: int, i: nat, T: Trie, p: Path, x: int)
    requires Tiled(C, end) && CanChain(m, C, i, T, p, x) && T[p] != []
    ensures BinChange(C, Rekind(C, x, Large(p)), i)
    ensures forall a | a in ChainOwners(T, p, x) :: a == 0 || OfBin(C, i, a)
  {
    hide InBin, InRange;
    TreeNode(m, C, i, T, p);
    OwnMember(m, C, i, T, p, 0);
    if |T[p]| > 1 { OwnMember(m, C, i, T, p, 1); }
    forall a | OfBin(C, i, a) && C[a].kind.Large? ensures C[a].n >= 32 {
      assert ChunkOK(C, end, a);
    }
  }

  // ----- The search for the place to insert -----

  /** From m to w only link words of x were written: it has its index and no children. */
  ghost predicate Fresh(m: Memory, w: Memory, i: nat, x: int) {
    && |w| == |m| && At(w, x + 4) == 0 && At(w, x + 5) == 0 && At(w, x + 7) == i
    && forall y | !(x + 2 <= y <= x + 7) :: At(w, y) == At(m, y)
  }

  /** No position above p holds size s. */
  ghost predicate NoneAbove(C: Chunks, T: Trie, p: Path, s: nat) {
    forall u {:trigger Under(p, u)} | u in T && u != p && Under(p, u) :: SizeAt(C, T, u) != s
  }

  lemma NoneAboveStep(C: Chunks, T: Trie, p: Path, b: bool, s: nat)
    requires NoneAbove(C, T, p, s) && SizeAt(C, T, p) != s
    ensures NoneAbove(C, T, Down(p, b), s)
  {
    hide SizeAt;
    forall u | u in T && u != Down(p, b) && Under(Down(p, b), u) ensures SizeAt(C, T, u) != s {
      assert Under(p, u);
    }
  }

  /** The search has run off the tree at q: s is nowhere in it. */
  lemma NotInTree(m: Memory, C: Chunks, i: nat, T: Trie, q: Path, s: nat)
    requires TreeOK(m, C, i, T) && q !in T && InRange(i, q, s) && NoneAbove(C, T, q, s)
    ensures forall u | u in T :: SizeAt(C, T, u) != s
  {
    hide TreeOK, InRange, SizeAt, InBin;
    forall u | u in T ensures SizeAt(C, T, u) != s {
      if SizeAt(C, T, u) == s {
        TreePlaced(m, C, i, T, u);
        Comparable(i, u, q, s);
        if !Under(q, u) { StillIn(m, C, i, T, u, q); }
      }
    }
  }

  lemma TreePlaced(m: Memory, C: Chunks, i: nat, T: Trie, p: Path)
    requires TreeOK(m, C, i, T) && p in T
    ensures InRange(i, p, SizeAt(C, T, p)) && InBin(i, SizeAt(C, T, p)) && SizeAt(C, T, p) < SIZE_T_LIMIT
    ensures p.Down? ==> p.up in T
  {
    TreeNode(m, C, i, T, p);
  }

  lemma {:induction false} StillIn(m: Memory, C: Chunks, i: nat, T: Trie, u: Path, q: Path)
    requires TreeOK(m, C, i, T) && u in T && Under(u, q)
    ensures q in T
    decreases u
  {
    hide TreeOK;
    if u != q {
      TreePlaced(m, C, i, T, u);
      StillIn(m, C, i, T, u.up, q);
    }
  }

  /** What a search reads at the node of p. */
  lemma NodeReads(m: Memory, C: Chunks, end: int, i: nat, T: Trie, p: Path)
    requires Tiled(C, end) && Tagged(m, C, end) && TreeOK(m, C, i, T) && p in T
    ensures var t := NodeAt(T, p);
      && T[p] != [] && t in C && C[t].kind == Large(p) && C[t].n >= 32 && t >= STATE_WORDS && t + 7 < |m|
      && ChunkSize(At(m, t + 1)) == SizeAt(C, T, p)
      && At(m, t + 4) == NodeAt(T, Down(p, false)) && At(m, t + 5) == NodeAt(T, Down(p, true))
      && At(m, t + 2) == Next(T[p], 0)
  {
    hide InBin, InRange;
    TreeNode(m, C, i, T, p);
    NodeWhere(m, C, end, i, T, p, 0);
    var t := T[p][0];
    assert TagOK(m, C, t);
    HeadFields(C[t]);
    assert LargeMember(C, p, SizeAt(C, T, p), t);
    assert LinkAt(m, T[p], 0);
  }

  /** The same words, read while the fresh chunk x waits to be linked. */
  lemma FreshReads(m: Memory, w: Memory, C: Chunks, end: int, i: nat, T: Trie, p: Path, x: int)
    requires Tiled(C, end) && Tagged(m, C, end) && TreeOK(m, C, i, T) && p in T
    requires x in C && C[x].kind == Loose && C[x].n >= 32 && Fresh(m, w, i, x)
    ensures T[p] != [] && forall y | NodeAt(T, p) < y <= NodeAt(T, p) + 7 :: At(w, y) == At(m, y)
  {
    hide TreeOK;
    NodeReads(m, C, end, i, T, p);
    assert Apart(C, NodeAt(T, p), x) && ChunkOK(C, end, x);
  }

  /** A link is null exactly when its position is vacant. */
  lemma NodeNull(m: Memory, C: Chunks, end: int, i: nat, T: Trie, p: Path)
    requires Tiled(C, end) && TreeOK(m, C, i, T)
    ensures NodeAt(T, p) == 0 <==> p !in T
    ensures NodeAt(T, p) >= 0
  {
    hide InBin, InRange;
    if p in T {
      TreeNode(m, C, i, T, p);
      NodeWhere(m, C, end, i, T, p, 0);
    }
  }

  /** The writes that hang x at q, after the fresh ones. */
  lemma HungFromFresh(m: Memory, v: Memory, w: Memory, C: Chunks, end: int, i: nat, T: Trie, q: Path, x: int)
    requires Tiled(C, end) && Tagged(m, C, end) && CanHang(m, C, i, T, q, x) && Fresh(m, v, i, x)
    requires var c := LinkTo(i, T, q); 0 <= c < |v| && 0 <= x && x + 7 < |v|
    requires w == v[LinkTo(i, T, q) := x][x + 6 := ParentAt(i, T, q)][x + 3 := x][x + 2 := x]
    ensures Hung(m, w, i, T, q, x)
  {
    hide InBin, InRange;
    assert ChunkOK(C, end, x);
    if q.Down? {
      NodeReads(m, C, end, i, T, q.up);
      assert Apart(C, x, NodeAt(T, q.up));
    }
  }

  lemma HangBounds(m: Memory, C: Chunks, end: int, i: nat, T: Trie, q: Path, x: int)
    requires Tiled(C, end) && Tagged(m, C, end) && CanHang(m, C, i, T, q, x)
    ensures 0 <= LinkTo(i, T, q) < |m| && 0 <= x && x + 7 < |m|
  {
    hide InBin, InRange;
    assert ChunkOK(C, end, x) && ChunkOK(C, end, 0);
    if q.Down? { NodeReads(m, C, end, i, T, q.up); }
  }

  lemma ChainJoined(m: Memory, v: Memory, C: Chunks, end: int, i: nat, T: Trie, p: Path, x: int)
    requires Tiled(C, end) && Tagged(m, C, end) && CanChain(m, C, i, T, p, x) && Fresh(m, v, i, x)
    ensures T[p] != [] && Fits(|v|, T[p][0]) && Fits(|v|, x) && Fits(|v|, Next(T[p], 0)) && x + 7 < |v|
    ensures Ring(Join(v, T[p][0], x, Next(T[p], 0)), InsertAfter(T[p], x))
    ensures forall k | 0 <= k < |T[p]| :: T[p][k] + 8 <= x || x + 8 <= T[p][k]
    ensures Next(T[p], 0) == T[p][0] || Clear(T[p][0], Next(T[p], 0))
  {
    hide InBin, InRange, TreeOK;
    ChainFacts(m, C, end, i, T, p, x);
    var r := T[p];
    assert Ring(m, r) && ChunkOK(C, end, x);
    forall k | 0 <= k < |r|
      ensures (r[k] + 8 <= x || x + 8 <= r[k]) && Clear(r[k], x)
      ensures Fd(v, r[k]) == Fd(m, r[k]) && Bk(v, r[k]) == Bk(m, r[k])
    {
      NodeWhere(m, C, end, i, T, p, k);
      assert Apart(C, r[k], x);
    }
    RingKept(m, v, r);
    InsertRing(v, r, x);
  }

  /** The writes that chain x behind the node of p, after the fresh ones. */
  lemma ChainedFromFresh(m: Memory, v: Memory, C: Chunks, end: int, i: nat, T: Trie, p: Path, x: int)
    requires Tiled(C, end) && Tagged(m, C, end) && CanChain(m, C, i, T, p, x) && Fresh(m, v, i, x)
    ensures T[p] != [] && Fits(|v|, T[p][0]) && Fits(|v|, x) && Fits(|v|, Next(T[p], 0)) && x + 7 < |v|
    ensures Chained(m, Join(v, T[p][0], x, Next(T[p], 0))[x + 6 := 0], i, T, p, x)
    ensures Next(T[p], 0) + 3 != T[p][0] + 2
  {
    hide Tiled, Tagged, TreeOK;
    ChainJoined(m, v, C, end, i, T, p, x);
    var r, f := T[p], Next(T[p], 0);
    JoinWords(v, r[0], x, f);
    var j := Join(v, r[0], x, f);
    var w := j[x + 6 := 0];
    hide Join;
    var s := InsertAfter(r, x);
    forall k | 0 <= k < |s| ensures Fd(w, s[k]) == Fd(j, s[k]) && Bk(w, s[k]) == Bk(j, s[k]) {
      if k != 1 { assert s[k] == r[if k == 0 then 0 else k - 1]; }
    }
    RingKept(j, w, s);
    hide Ring;
    assert f == r[0] || f == r[1];
    assert ChainLinks(w, i, x);
  }

  /** What InsertLargeChunk knows while it stands at position p, in a memory where x is fresh. */
  ghost predicate Seeking(m: Memory, C: Chunks, i: nat, T: Trie, p: Path, x: int, k: nat) {
    p in T && x in C && Justified(i, p, 8 * C[x].n, k) && NoneAbove(C, T, p, 8 * C[x].n)
  }

  ghost predicate Insertable(m: Memory, C: Chunks, i: nat, T: Trie, x: int) {
    && x in C && C[x].kind == Loose && C[x].n >= 32 && 8 * C[x].n < SIZE_T_LIMIT
    && i < 32 && InBin(i, 8 * C[x].n) && TreeOK(m, C, i, T)
  }

  lemma SeekStart(m: Memory, C: Chunks, i: nat, T: Trie, x: int)
    requires Insertable(m, C, i, T, x) && Root in T
    ensures Seeking(m, C, i, T, Root, x, SizeBits(i, 8 * C[x].n))
  {
    hide TreeOK, InBin;
    JustifiedStart(i, 8 * C[x].n);
  }

  /** The size at p is not that of x: go on to the child the sign bit names, or hang x there. */
  lemma SeekStep(m: Memory, C: Chunks, i: nat, T: Trie, p: Path, x: int, k: nat)
    requires Insertable(m, C, i, T, x) && Seeking(m, C, i, T, p, x, k) && SizeAt(C, T, p) != 8 * C[x].n
    ensures Open(i, p) >= 1
    ensures var q := Down(p, SignBit(k));
      if q in T then Seeking(m, C, i, T, q, x, Shl64(k)) else CanHang(m, C, i, T, q, x)
  {
    hide TreeOK, InBin, InRange, SizeAt, SignBit, Shl64, NoneAbove, Pow2, Lo;
    TreePlaced(m, C, i, T, p);
    OpenBits(i, p, SizeAt(C, T, p), 8 * C[x].n);
    JustifiedStep(i, p, 8 * C[x].n, k);
    var q := Down(p, SignBit(k));
    NoneAboveStep(C, T, p, SignBit(k), 8 * C[x].n);
    if q !in T {
      NotInTree(m, C, i, T, q, 8 * C[x].n);
    }
  }
}
