/** Taking a chunk out of its tree bin: unlink_large_chunk. */
module TreeUnlink {
  import opened Sizes
  import opened Layout
  import opened Tags
  import opened Rings
  import opened Paths
  import opened Bins
  import opened SmallOps
  import opened TreeOps

  predicate IsLeaf(T: Trie, l: Path) { l in T && Down(l, false) !in T && Down(l, true) !in T }

  // ----- Distinct nodes -----

  /** Members of different positions are different chunks with disjoint link words. */
  lemma MembersApart(m: Memory, C: Chunks, end: int, i: nat, T: Trie, p: Path, j: nat, q: Path, k: nat)
    requires Tiled(C, end) && p in T && q in T && NodeOK(m, C, i, T, p) && NodeOK(m, C, i, T, q)
    requires j < |T[p]| && k < |T[q]| && (p != q || j != k)
    ensures T[p][j] + 8 <= T[q][k] || T[q][k] + 8 <= T[p][j]
  {
    hide InBin, InRange;
    NodeWhere(m, C, end, i, T, p, j);
    NodeWhere(m, C, end, i, T, q, k);
    assert Apart(C, T[p][j], T[q][k]);
  }

  // ----- Detaching a leaf -----

  /** The one write of a leaf's removal: the pointer to it becomes null. */
  ghost predicate Detached(m: Memory, w: Memory, i: nat, T: Trie, l: Path) {
    |w| == |m| && At(w, LinkTo(i, T, l)) == 0 && forall y | y != LinkTo(i, T, l) :: At(w, y) == At(m, y)
  }

  lemma DetachWords(m: Memory, w: Memory, C: Chunks, end: int, i: nat, T: Trie, l: Path, p: Path, k: nat)
    requires Tiled(C, end) && TreeOK(m, C, i, T) && IsLeaf(T, l) && Detached(m, w, i, T, l) && i < 32
    requires p in T && k < |T[p]|
    ensures var a := T[p][k];
      && Fd(w, a) == Fd(m, a) && Bk(w, a) == Bk(m, a)
      && At(w, a + 4) == (if k == 0 && l == Down(p, false) then 0 else At(m, a + 4))
      && At(w, a + 5) == (if k == 0 && l == Down(p, true) then 0 else At(m, a + 5))
      && At(w, a + 6) == At(m, a + 6) && At(w, a + 7) == At(m, a + 7)
  {
    hide InBin, InRange, Ring;
    TreeNode(m, C, i, T, p);
    TreeNode(m, C, i, T, l);
    NodeWhere(m, C, end, i, T, p, k);
    if l.Down? {
      TreeNode(m, C, i, T, l.up);
      NodeWhere(m, C, end, i, T, l.up, 0);
      if p != l.up || k != 0 { MembersApart(m, C, end, i, T, l.up, 0, p, k); }
    }
  }

  lemma DetachNode(m: Memory, w: Memory, C: Chunks, end: int, i: nat, T: Trie, l: Path, p: Path)
    requires Tiled(C, end) && TreeOK(m, C, i, T) && IsLeaf(T, l) && Detached(m, w, i, T, l) && i < 32
    requires p in T && p != l
    ensures NodeOK(w, C, i, T - {l}, p) && SizeAt(C, T - {l}, p) == SizeAt(C, T, p)
  {
    hide InBin, InRange, Ring, Tiled, Detached;
    TreeNode(m, C, i, T, p);
    forall k | 0 <= k < |T[p]|
      ensures T[p][k] in C && Fd(w, T[p][k]) == Fd(m, T[p][k]) && Bk(w, T[p][k]) == Bk(m, T[p][k])
      ensures k >= 1 ==> ChainLinks(w, i, T[p][k])
    {
      assert LargeMember(C, p, SizeAt(C, T, p), T[p][k]);
      DetachWords(m, w, C, end, i, T, l, p, k);
      if k >= 1 { assert ChainLinks(m, i, T[p][k]); }
    }
    DetachLength(m, w, i, T, l);
    DetachWords(m, w, C, end, i, T, l, p, 0);
    assert p.Down? ==> p == Down(p.up, p.bit) && p.up != l;
    assert TreeLinks(w, i, T - {l}, p);
    NodeRebuilt(m, w, C, C, i, T, T - {l}, p);
  }

  lemma DetachLength(m: Memory, w: Memory, i: nat, T: Trie, l: Path)
    requires Detached(m, w, i, T, l)
    ensures |w| == |m|
  {}

  /** The tree without the leaf; the leaf's own ring is intact and has no tree links below it. */
  lemma DetachTree(m: Memory, w: Memory, C: Chunks, end: int, i: nat, T: Trie, l: Path)
    requires Tiled(C, end) && TreeOK(m, C, i, T) && IsLeaf(T, l) && Detached(m, w, i, T, l) && i < 32
    ensures TreeOK(w, C, i, T - {l})
  {
    hide InBin, InRange, NodeOK, SizeAt, Tiled;
    var U := T - {l};
    forall p | p in U ensures NodeOK(w, C, i, U, p) && SizeAt(C, U, p) == SizeAt(C, T, p) {
      DetachNode(m, w, C, end, i, T, l, p);
    }
    DetachSlot(m, w, C, end, i, T, l);
  }

  lemma DetachSlot(m: Memory, w: Memory, C: Chunks, end: int, i: nat, T: Trie, l: Path)
    requires Tiled(C, end) && TreeOK(m, C, i, T) && IsLeaf(T, l) && Detached(m, w, i, T, l) && i < 32
    ensures At(w, TreeBinAt(i)) == NodeAt(T - {l}, Root)
    ensures forall y | 11 <= y <= 108 && y != TreeBinAt(i) :: At(w, y) == At(m, y)
    ensures LinksOnly(m, w, C, end, {if l.Down? then NodeAt(T, l.up) else 0})
  {
    hide InBin, InRange;
    TreeNode(m, C, i, T, l);
    if l.Down? {
      TreeNode(m, C, i, T, l.up);
      NodeWhere(m, C, end, i, T, l.up, 0);
    }
    OneLinkWrite(m, w, C, end, if l.Down? then NodeAt(T, l.up) else 0, LinkTo(i, T, l));
  }

  // ----- A new ring at a position -----

  /** The tree is right except that the ring at p is not looked at. */
  ghost predicate TreeBut(m: Memory, C: Chunks, i: nat, T: Trie, p: Path) {
    && i < 32 && p in T && T[p] != [] && At(m, TreeBinAt(i)) == NodeAt(T, Root)
    && (forall q {:trigger NodeOK(m, C, i, T, q)} | q in T && q != p :: NodeOK(m, C, i, T, q))
    && TreeLinks(m, i, T, p) && (p.Down? ==> p.up in T)
    && UniqueSizes(C, T)
  }

  /** r is a ring of chunks of size s, labelled z, which is p itself or no position of T. */
  ghost predicate Spare(m: Memory, C: Chunks, i: nat, T: Trie, p: Path, z: Path, s: nat, r: seq<int>) {
    && (z == p || z !in T) && |r| >= 1 && Ring(m, r)
    && (forall k | 0 <= k < |r| :: LargeMember(C, z, s, r[k]))
    && (forall k | 1 <= k < |r| :: ChainLinks(m, i, r[k]))
    && At(m, r[0] + 4) == 0 && At(m, r[0] + 5) == 0 && At(m, r[0] + 7) == i
    && s < SIZE_T_LIMIT && InBin(i, s) && InRange(i, p, s)
    && (forall q | q in T && q != p :: SizeAt(C, T, q) != s)
  }

  /** Parent and children of p are relinked to h. */
  ghost predicate Swapped(m: Memory, w: Memory, i: nat, T: Trie, p: Path, h: int) {
    var c0, c1 := NodeAt(T, Down(p, false)), NodeAt(T, Down(p, true));
    && |w| == |m| && At(w, LinkTo(i, T, p)) == h && At(w, h + 6) == ParentAt(i, T, p)
    && At(w, h + 4) == c0 && At(w, h + 5) == c1
    && (c0 != 0 ==> At(w, c0 + 6) == h) && (c1 != 0 ==> At(w, c1 + 6) == h)
    && (forall y | y != LinkTo(i, T, p) && y != h + 4 && y != h + 5 && y != h + 6
          && (c0 == 0 || y != c0 + 6) && (c1 == 0 || y != c1 + 6) :: At(w, y) == At(m, y))
  }

  function Relabel(C: Chunks, x: int, r: seq<int>, p: Path): Chunks {
    map a | a in C :: if a in r then C[a].(kind := Large(p)) else if a == x then C[a].(kind := Loose) else C[a]
  }

  lemma SpareWhere(m: Memory, C: Chunks, end: int, i: nat, T: Trie, p: Path, z: Path, s: nat, r: seq<int>, j: nat)
    requires Tiled(C, end) && Spare(m, C, i, T, p, z, s, r) && j < |r|
    ensures var a := r[j]; a in C && C[a].kind == Large(z) && C[a].n >= 32 && a >= STATE_WORDS && a + C[a].n <= end
  {
    hide InBin, InRange;
    assert LargeMember(C, z, s, r[j]);
    assert ChunkOK(C, end, r[j]);
  }

  /** The link words of member k of position q, q not p, after the swap. */
  lemma SwapWords(m: Memory, w: Memory, C: Chunks, end: int, i: nat, T: Trie, p: Path, z: Path, s: nat, r: seq<int>, q: Path, k: nat)
    requires Tiled(C, end) && TreeBut(m, C, i, T, p) && Spare(m, C, i, T, p, z, s, r) && Swapped(m, w, i, T, p, r[0])
    requires q in T && q != p && k < |T[q]|
    ensures var a, h := T[q][k], r[0];
      && Fd(w, a) == Fd(m, a) && Bk(w, a) == Bk(m, a)
      && At(w, a + 4) == (if k == 0 && p == Down(q, false) then h else At(m, a + 4))
      && At(w, a + 5) == (if k == 0 && p == Down(q, true) then h else At(m, a + 5))
      && At(w, a + 6) == (if k == 0 && q.Down? && q.up == p then h else At(m, a + 6))
      && At(w, a + 7) == At(m, a + 7)
  {
    hide InBin, InRange, Ring, TreeLinks;
    var a, h := T[q][k], r[0];
    SpareWhere(m, C, end, i, T, p, z, s, r, 0);
    ButWhere(m, C, end, i, T, p, q, k);
    assert Apart(C, a, h);
    assert Depth(Down(p, false)) == Depth(Down(p, true)) == Depth(p) + 1;
    SwapNodesApart(m, C, end, i, T, p, Down(p, false), q, k);
    SwapNodesApart(m, C, end, i, T, p, Down(p, true), q, k);
    if p.Down? { SwapNodesApart(m, C, end, i, T, p, p.up, q, k); }
  }

  lemma ButWhere(m: Memory, C: Chunks, end: int, i: nat, T: Trie, p: Path, q: Path, k: nat)
    requires Tiled(C, end) && TreeBut(m, C, i, T, p) && q in T && q != p && k < |T[q]|
    ensures var a := T[q][k]; a in C && C[a].kind == Large(q) && C[a].n >= 32 && a >= STATE_WORDS && a + C[a].n <= end
  {
    hide InBin, InRange;
    assert NodeOK(m, C, i, T, q);
    NodeWhere(m, C, end, i, T, q, k);
  }

  lemma SwapNodesApart(m: Memory, C: Chunks, end: int, i: nat, T: Trie, p: Path, u: Path, q: Path, k: nat)
    requires Tiled(C, end) && TreeBut(m, C, i, T, p) && q in T && q != p && k < |T[q]| && u != p
    ensures NodeAt(T, u) != 0 ==> u in T && T[u] != [] && NodeAt(T, u) >= STATE_WORDS
    ensures u in T ==> NodeAt(T, u) != 0
    ensures NodeAt(T, u) != 0 && (u != q || k != 0) ==> NodeAt(T, u) + 8 <= T[q][k] || T[q][k] + 8 <= NodeAt(T, u)
  {
    hide InBin, InRange;
    assert NodeOK(m, C, i, T, q);
    if u in T {
      assert NodeOK(m, C, i, T, u);
      NodeWhere(m, C, end, i, T, u, 0);
      if u != q || k != 0 { MembersApart(m, C, end, i, T, u, 0, q, k); }
    }
  }

  lemma SwapOther(m: Memory, w: Memory, C: Chunks, D: Chunks, end: int, i: nat, T: Trie, p: Path, z: Path, s: nat, r: seq<int>, q: Path)
    requires Tiled(C, end) && TreeBut(m, C, i, T, p) && Spare(m, C, i, T, p, z, s, r) && Swapped(m, w, i, T, p, r[0])
    requires q in T && q != p
    requires forall a | a in C && C[a].kind == Large(q) :: a in D && Alike(C[a], D[a])
    ensures NodeOK(w, D, i, T[p := r], q) && SizeAt(D, T[p := r], q) == SizeAt(C, T, q)
  {
    hide InBin, InRange, Ring, Tiled, Swapped, Spare;
    assert NodeOK(m, C, i, T, q) && |r| >= 1 && |w| == |m| by { SwapLengths(m, w, C, i, T, p, z, s, r); }
    forall k | 0 <= k < |T[q]|
      ensures T[q][k] in C && C[T[q][k]].kind == Large(q)
      ensures Fd(w, T[q][k]) == Fd(m, T[q][k]) && Bk(w, T[q][k]) == Bk(m, T[q][k])
      ensures k >= 1 ==> ChainLinks(w, i, T[q][k])
    {
      assert LargeMember(C, q, SizeAt(C, T, q), T[q][k]);
      SwapWords(m, w, C, end, i, T, p, z, s, r, q, k);
      if k >= 1 { assert ChainLinks(m, i, T[q][k]); }
    }
    ButNonempty(m, C, i, T, p, q);
    SwapWords(m, w, C, end, i, T, p, z, s, r, q, 0);
    assert TreeLinks(w, i, T[p := r], q);
    NodeRebuilt(m, w, C, D, i, T, T[p := r], q);
  }

  lemma SwapLengths(m: Memory, w: Memory, C: Chunks, i: nat, T: Trie, p: Path, z: Path, s: nat, r: seq<int>)
    requires Spare(m, C, i, T, p, z, s, r) && Swapped(m, w, i, T, p, r[0])
    ensures |r| >= 1 && |w| == |m|
  {}

  /** Members of the spare ring keep their ring links, and but for the head all link words. */
  lemma SpareWords(m: Memory, w: Memory, C: Chunks, end: int, i: nat, T: Trie, p: Path, z: Path, s: nat, r: seq<int>, j: nat)
    requires Tiled(C, end) && TreeBut(m, C, i, T, p) && Spare(m, C, i, T, p, z, s, r) && Swapped(m, w, i, T, p, r[0]) && j < |r|
    ensures var a := r[j];
      && Fd(w, a) == Fd(m, a) && Bk(w, a) == Bk(m, a) && At(w, a + 7) == At(m, a + 7)
      && (j >= 1 ==> ChainLinks(w, i, a))
  {
    hide InBin, InRange, Ring, TreeLinks;
    SpareWhere(m, C, end, i, T, p, z, s, r, j);
    SpareWhere(m, C, end, i, T, p, z, s, r, 0);
    if j >= 1 {
      SpareDistinct(m, C, i, T, p, z, s, r, j);
      assert Apart(C, r[0], r[j]) && ChainLinks(m, i, r[j]);
    }
    assert Depth(Down(p, false)) == Depth(Down(p, true)) == Depth(p) + 1;
    SpareApart(m, C, end, i, T, p, z, s, r, j, Down(p, false));
    SpareApart(m, C, end, i, T, p, z, s, r, j, Down(p, true));
    if p.Down? { SpareApart(m, C, end, i, T, p, z, s, r, j, p.up); }
  }

  lemma SpareDistinct(m: Memory, C: Chunks, i: nat, T: Trie, p: Path, z: Path, s: nat, r: seq<int>, j: nat)
    requires Spare(m, C, i, T, p, z, s, r) && 1 <= j < |r|
    ensures r[0] != r[j]
  {
    assert Clear(r[0], r[j]);
  }

  lemma SpareApart(m: Memory, C: Chunks, end: int, i: nat, T: Trie, p: Path, z: Path, s: nat, r: seq<int>, j: nat, u: Path)
    requires Tiled(C, end) && TreeBut(m, C, i, T, p) && Spare(m, C, i, T, p, z, s, r) && j < |r| && u != p
    ensures u in T ==> NodeAt(T, u) != 0
    ensures NodeAt(T, u) != 0 ==> NodeAt(T, u) >= STATE_WORDS
    ensures NodeAt(T, u) != 0 ==> NodeAt(T, u) + 8 <= r[j] || r[j] + 8 <= NodeAt(T, u)
  {
    hide InBin, InRange, Ring, TreeLinks;
    SpareWhere(m, C, end, i, T, p, z, s, r, j);
    if u in T {
      ButNonempty(m, C, i, T, p, u);
      ButWhere(m, C, end, i, T, p, u, 0);
      assert Apart(C, T[u][0], r[j]);
    }
  }

  lemma ButNonempty(m: Memory, C: Chunks, i: nat, T: Trie, p: Path, u: Path)
    requires TreeBut(m, C, i, T, p) && u in T
    ensures T[u] != [] && (u.Down? ==> u.up in T)
  {
    if u != p { assert NodeOK(m, C, i, T, u); }
  }

  lemma SwapNode(m: Memory, w: Memory, C: Chunks, D: Chunks, end: int, i: nat, T: Trie, p: Path, z: Path, s: nat, r: seq<int>)
    requires Tiled(C, end) && TreeBut(m, C, i, T, p) && Spare(m, C, i, T, p, z, s, r) && Swapped(m, w, i, T, p, r[0])
    requires forall k | 0 <= k < |r| :: LargeMember(D, p, s, r[k])
    ensures NodeOK(w, D, i, T[p := r], p) && SizeAt(D, T[p := r], p) == s
  {
    hide InBin, InRange, Tiled;
    var U := T[p := r];
    forall k | 0 <= k < |r|
      ensures Fd(w, r[k]) == Fd(m, r[k]) && Bk(w, r[k]) == Bk(m, r[k])
      ensures k >= 1 ==> ChainLinks(w, i, r[k])
    {
      SpareWords(m, w, C, end, i, T, p, z, s, r, k);
    }
    RingKept(m, w, r);
    SpareWords(m, w, C, end, i, T, p, z, s, r, 0);
    assert LargeMember(D, p, s, r[0]);
    assert Depth(Down(p, false)) == Depth(Down(p, true)) == Depth(p) + 1;
    assert p.Down? ==> Depth(p.up) + 1 == Depth(p);
    assert TreeLinks(w, i, U, p);
  }

  lemma SwapSlot(m: Memory, w: Memory, C: Chunks, end: int, i: nat, T: Trie, p: Path, z: Path, s: nat, r: seq<int>)
    requires Tiled(C, end) && TreeBut(m, C, i, T, p) && Spare(m, C, i, T, p, z, s, r) && Swapped(m, w, i, T, p, r[0])
    ensures At(w, TreeBinAt(i)) == NodeAt(T[p := r], Root)
    ensures forall y | 11 <= y <= 108 && y != TreeBinAt(i) :: At(w, y) == At(m, y)
  {
    hide InBin, InRange, Ring, TreeLinks;
    assert Depth(Down(p, false)) == Depth(Down(p, true)) == Depth(p) + 1;
    SpareWhere(m, C, end, i, T, p, z, s, r, 0);
    SpareApart(m, C, end, i, T, p, z, s, r, 0, Down(p, false));
    SpareApart(m, C, end, i, T, p, z, s, r, 0, Down(p, true));
    if p.Down? { SpareApart(m, C, end, i, T, p, z, s, r, 0, p.up); }
  }

  lemma SwapTree(m: Memory, w: Memory, C: Chunks, D: Chunks, end: int, i: nat, T: Trie, p: Path, z: Path, s: nat, r: seq<int>)
    requires Tiled(C, end) && TreeBut(m, C, i, T, p) && Spare(m, C, i, T, p, z, s, r) && Swapped(m, w, i, T, p, r[0])
    requires forall k | 0 <= k < |r| :: LargeMember(D, p, s, r[k])
    requires forall q, a | q in T && q != p && a in C && C[a].kind == Large(q) :: a in D && Alike(C[a], D[a])
    ensures TreeOK(w, D, i, T[p := r])
  {
    hide InBin, InRange, NodeOK, SizeAt, Tiled, Swapped, Ring, TreeLinks;
    var U := T[p := r];
    forall q | q in U ensures NodeOK(w, D, i, U, q) && SizeAt(D, U, q) == (if q == p then s else SizeAt(C, T, q)) {
      if q == p {
        SwapNode(m, w, C, D, end, i, T, p, z, s, r);
      } else {
        SwapOther(m, w, C, D, end, i, T, p, z, s, r, q);
      }
    }
    SwapSlot(m, w, C, end, i, T, p, z, s, r);
  }

  // ----- Cutting a chunk out of a ring of two or more -----

  ghost predicate CutAt(m: Memory, w: Memory, T: Trie, p: Path, k: nat)
    requires p in T && k < |T[p]|
  {
    var r := T[p];
    && |r| >= 2 && |w| == |m| && Ring(w, RemoveAt(r, k))
    && (forall y | y != Next(r, k) + 3 && y != Prev(r, k) + 2 :: At(w, y) == At(m, y))
  }

  function CutOwners(T: Trie, p: Path, k: nat): set<int>
    requires p in T && k < |T[p]|
  {
    {Next(T[p], k), Prev(T[p], k)}
  }

  lemma CutLinked(m: Memory, w: Memory, C: Chunks, end: int, i: nat, T: Trie, p: Path, k: nat)
    requires Tiled(C, end) && TreeOK(m, C, i, T) && i < 32 && p in T && k < |T[p]| && CutAt(m, w, T, p, k)
    ensures LinksOnly(m, w, C, end, CutOwners(T, p, k))
    ensures forall a | a in CutOwners(T, p, k) :: OfBin(C, i, a) && C[a].kind == Large(p)
    ensures forall y | 11 <= y <= 108 :: At(w, y) == At(m, y)
    ensures forall j | 0 <= j < |T[p]| :: forall y | T[p][j] + 4 <= y <= T[p][j] + 7 :: At(w, y) == At(m, y)
  {
    hide InBin, InRange, Ring;
    var r, N := T[p], CutOwners(T, p, k);
    TreeNode(m, C, i, T, p);
    var a, b := (if k + 1 < |r| then k + 1 else 0), (if k == 0 then |r| - 1 else k - 1);
    NodeWhere(m, C, end, i, T, p, a);
    NodeWhere(m, C, end, i, T, p, b);
    OwnMember(m, C, i, T, p, a);
    OwnMember(m, C, i, T, p, b);
    assert LinkWord(C, r[a], r[a] + 3) && LinkWord(C, r[b], r[b] + 2);
    LinksFrom(m, w, C, end, N);
    forall j | 0 <= j < |r| ensures forall y | r[j] + 4 <= y <= r[j] + 7 :: At(w, y) == At(m, y) {
      NodeWhere(m, C, end, i, T, p, j);
      assert Apart(C, r[j], r[a]) && Apart(C, r[j], r[b]);
    }
  }

  /** Positions other than p are as they were. */
  lemma CutOther(m: Memory, w: Memory, C: Chunks, D: Chunks, end: int, i: nat, T: Trie, p: Path, k: nat, q: Path)
    requires Tiled(C, end) && TreeOK(m, C, i, T) && i < 32 && p in T && k < |T[p]| && CutAt(m, w, T, p, k)
    requires q in T && q != p
    requires forall a | a in C && C[a].kind == Large(q) :: a in D && Alike(C[a], D[a])
    ensures NodeOK(w, D, i, T, q) && SizeAt(D, T, q) == SizeAt(C, T, q)
  {
    hide InBin, InRange, Tiled, Ring, LinksOnly;
    CutLinked(m, w, C, end, i, T, p, k);
    TreeNode(m, C, i, T, q);
    forall j | 0 <= j < |T[q]| ensures MemberKept(m, w, C, D, T[q][j]) {
      NodeWhere(m, C, end, i, T, q, j);
      LinksMember(m, w, C, D, end, CutOwners(T, p, k), T[q][j]);
    }
    NodeKept(m, w, C, D, i, T, q);
  }

  lemma LinksMember(m: Memory, w: Memory, C: Chunks, D: Chunks, end: int, N: set<int>, a: int)
    requires Tiled(C, end) && LinksOnly(m, w, C, end, N)
    requires a in C && a !in N && Binned(C[a]) && a in D && Alike(C[a], D[a])
    ensures MemberKept(m, w, C, D, a)
  {
    MemberIsKept(m, w, C, D, end, N, a);
  }

  /** A chained chunk other than the tree node leaves its ring. */
  lemma CutChained(m: Memory, w: Memory, C: Chunks, end: int, i: nat, T: Trie, p: Path, k: nat)
    requires Tiled(C, end) && TreeOK(m, C, i, T) && i < 32 && p in T && 1 <= k < |T[p]| && CutAt(m, w, T, p, k)
    ensures T[p][k] in C
    ensures TreeOK(w, Rekind(C, T[p][k], Loose), i, T[p := RemoveAt(T[p], k)])
  {
    hide InBin, InRange, Tiled, Ring, LinksOnly, TreeLinks;
    var r, U := T[p], T[p := RemoveAt(T[p], k)];
    TreeNode(m, C, i, T, p);
    assert LargeMember(C, p, SizeAt(C, T, p), r[k]);
    var D := Rekind(C, r[k], Loose);
    CutLinked(m, w, C, end, i, T, p, k);
    forall q | q in U ensures NodeOK(w, D, i, U, q) && SizeAt(D, U, q) == SizeAt(C, T, q) {
      if q == p {
        CutChainedNode(m, w, C, end, i, T, p, k);
      } else {
        CutOther(m, w, C, D, end, i, T, p, k, q);
        SameHeads(w, D, i, T, U, q);
      }
    }
  }

  lemma SameHeads(w: Memory, D: Chunks, i: nat, T: Trie, U: Trie, q: Path)
    requires q in T && q in U && T[q] == U[q] && NodeOK(w, D, i, T, q)
    requires T.Keys == U.Keys && forall u | u in T :: NodeAt(T, u) == NodeAt(U, u)
    ensures NodeOK(w, D, i, U, q) && SizeAt(D, U, q) == SizeAt(D, T, q)
  {
    hide InBin, InRange, Ring;
  }

  lemma CutChainedNode(m: Memory, w: Memory, C: Chunks, end: int, i: nat, T: Trie, p: Path, k: nat)
    requires Tiled(C, end) && TreeOK(m, C, i, T) && i < 32 && p in T && 1 <= k < |T[p]| && CutAt(m, w, T, p, k)
    requires T[p][k] in C
    ensures var D, U := Rekind(C, T[p][k], Loose), T[p := RemoveAt(T[p], k)];
      NodeOK(w, D, i, U, p) && SizeAt(D, U, p) == SizeAt(C, T, p)
  {
    hide InBin, InRange, Tiled, LinksOnly;
    var r, U := T[p], T[p := RemoveAt(T[p], k)];
    var D, s := Rekind(C, r[k], Loose), SizeAt(C, T, p);
    TreeNode(m, C, i, T, p);
    CutLinked(m, w, C, end, i, T, p, k);
    assert LargeMember(C, p, s, r[0]);
    forall j | 0 <= j < |U[p]|
      ensures LargeMember(D, p, s, U[p][j])
      ensures j >= 1 ==> ChainLinks(w, i, U[p][j])
    {
      var o := if j < k then j else j + 1;
      assert U[p][j] == r[o] && LargeMember(C, p, s, r[o]);
      RingDistinct(m, r, o, k);
      if j >= 1 { assert ChainLinks(m, i, r[o]); }
    }
    RingDistinct(m, r, 0, k);
    assert TreeLinks(w, i, U, p);
  }

  lemma RingDistinct(m: Memory, r: seq<int>, j: nat, k: nat)
    requires Ring(m, r) && j < |r| && k < |r| && j != k
    ensures r[j] != r[k]
  {
    assert Clear(if j < k then r[j] else r[k], if j < k then r[k] else r[j]);
  }

  lemma CutHeadRest(m: Memory, w: Memory, C: Chunks, end: int, i: nat, T: Trie, p: Path)
    requires Tiled(C, end) && TreeOK(m, C, i, T) && i < 32 && p in T && |T[p]| >= 2 && CutAt(m, w, T, p, 0)
    ensures TreeBut(w, C, i, T, p)
  {
    hide InBin, InRange, Tiled, LinksOnly, Ring, CutAt, SizeAt;
    TreeNode(m, C, i, T, p);
    CutLinked(m, w, C, end, i, T, p, 0);
    forall q | q in T && q != p ensures NodeOK(w, C, i, T, q) {
      CutOther(m, w, C, C, end, i, T, p, 0, q);
    }
    assert TreeLinks(w, i, T, p);
  }

  /** With the tree node cut out of a longer ring, the rest of the ring, read from its oldest
      chunk, is ready to take the node's place. */
  lemma CutHead(m: Memory, w: Memory, C: Chunks, end: int, i: nat, T: Trie, p: Path)
    requires Tiled(C, end) && TreeOK(m, C, i, T) && i < 32 && p in T && |T[p]| >= 2 && CutAt(m, w, T, p, 0)
    ensures TreeBut(w, C, i, T, p)
    ensures Spare(w, C, i, T, p, p, SizeAt(C, T, p), Rotate(RemoveAt(T[p], 0)))
  {
    hide InBin, InRange, Tiled, LinksOnly, TreeBut, SizeAt, TreeOK;
    CutHeadRest(m, w, C, end, i, T, p);
    TreeNode(m, C, i, T, p);
    CutLinked(m, w, C, end, i, T, p, 0);
    var r, s := T[p], SizeAt(C, T, p);
    var t := Rotate(RemoveAt(r, 0));
    RotateRing(w, RemoveAt(r, 0));
    assert LargeMember(C, p, s, r[0]);
    forall k | 0 <= k < |t|
      ensures LargeMember(C, p, s, t[k]) && ChainLinks(w, i, t[k])
    {
      var o := if k == 0 then |r| - 1 else k;
      assert t[k] == r[o] && LargeMember(C, p, s, r[o]) && ChainLinks(m, i, r[o]);
    }
    OtherSizes(m, C, i, T, p);
  }

  lemma OtherSizes(m: Memory, C: Chunks, i: nat, T: Trie, p: Path)
    requires TreeOK(m, C, i, T) && p in T
    ensures forall q | q in T && q != p :: SizeAt(C, T, q) != SizeAt(C, T, p)
  {
    hide SizeAt;
  }

  lemma LeafRing(m: Memory, w: Memory, C: Chunks, end: int, i: nat, T: Trie, l: Path)
    requires Tiled(C, end) && TreeOK(m, C, i, T) && IsLeaf(T, l) && Detached(m, w, i, T, l) && i < 32
    ensures var r, s := T[l], SizeAt(C, T, l);
      && |r| >= 1 && Ring(w, r) && Placed(C, i, T, l)
      && (forall k | 0 <= k < |r| :: LargeMember(C, l, s, r[k]))
      && (forall k | 1 <= k < |r| :: ChainLinks(w, i, r[k]))
      && At(w, r[0] + 4) == 0 && At(w, r[0] + 5) == 0 && At(w, r[0] + 7) == i
  {
    hide Placed, Tiled;
    var r, s := T[l], SizeAt(C, T, l);
    TreeNode(m, C, i, T, l);
    forall k | 0 <= k < |r|
      ensures LargeMember(C, l, s, r[k]) && (k >= 1 ==> ChainLinks(w, i, r[k]))
      ensures Fd(w, r[k]) == Fd(m, r[k]) && Bk(w, r[k]) == Bk(m, r[k])
    {
      DetachWords(m, w, C, end, i, T, l, l, k);
      if k >= 1 { assert ChainLinks(m, i, r[k]); }
    }
    RingKept(m, w, r);
    assert Depth(Down(l, false)) == Depth(Down(l, true)) == Depth(l) + 1;
    DetachWords(m, w, C, end, i, T, l, l, 0);
  }

  lemma LeafOthers(m: Memory, w: Memory, C: Chunks, end: int, i: nat, T: Trie, l: Path, p: Path)
    requires Tiled(C, end) && TreeOK(m, C, i, T) && IsLeaf(T, l) && Detached(m, w, i, T, l) && i < 32
    requires p in T && p != l
    ensures TreeBut(w, C, i, T - {l}, p)
    ensures forall q | q in T - {l} :: SizeAt(C, T - {l}, q) != SizeAt(C, T, l)
  {
    hide InBin, InRange, Tiled, Ring, Detached, SizeAt;
    var U := T - {l};
    DetachTree(m, w, C, end, i, T, l);
    TreeNode(w, C, i, U, p);
    forall q | q in U ensures SizeAt(C, U, q) != SizeAt(C, T, l) {
      DetachNode(m, w, C, end, i, T, l, q);
    }
  }

  /** A detached leaf's ring is ready to take the place of any node above it. */
  lemma LeafSpare(m: Memory, w: Memory, C: Chunks, end: int, i: nat, T: Trie, l: Path, p: Path)
    requires Tiled(C, end) && TreeOK(m, C, i, T) && IsLeaf(T, l) && Detached(m, w, i, T, l) && i < 32
    requires p in T && p != l && Under(l, p)
    ensures TreeBut(w, C, i, T - {l}, p)
    ensures T[l] != [] && Spare(w, C, i, T - {l}, p, l, SizeAt(C, T, l), T[l])
  {
    hide InBin, InRange, Tiled, Ring, Detached, SizeAt, TreeOK, Under;
    LeafRing(m, w, C, end, i, T, l);
    LeafOthers(m, w, C, end, i, T, l, p);
    RangeUnder(i, l, p, SizeAt(C, T, l));
  }

  // ----- unlink_large_chunk on the whole heap -----

  /** x has become loose; every other chunk is as it was, except that large chunks may have
      moved to another position of their tree. */
  ghost predicate Unbinned(C: Chunks, D: Chunks, x: int) {
    && x in C && C.Keys == D.Keys && D[x] == C[x].(kind := Loose)
    && (forall a | a in C && a != x ::
          D[a] == C[a] || (C[a].kind.Large? && D[a].kind.Large? && D[a].n == C[a].n && D[a].pin == C[a].pin))
  }

  /** The chained case: only the ring changes. */
  lemma UnlinkChained(m: Memory, w: Memory, C: Chunks, end: int, S: seq<seq<int>>, Ts: seq<Trie>, i: nat, p: Path, k: nat)
    requires Heap(m, C, end, S, Ts) && i < 32 && p in Ts[i] && 1 <= k < |Ts[i][p]| && CutAt(m, w, Ts[i], p, k)
    ensures Ts[i][p][k] in C && Unbinned(C, Rekind(C, Ts[i][p][k], Loose), Ts[i][p][k])
    ensures Heap(w, Rekind(C, Ts[i][p][k], Loose), end, S, Ts[i := Ts[i][p := RemoveAt(Ts[i][p], k)]])
    ensures LiveKept(m, w, C)
  {
    var T, x := Ts[i], Ts[i][p][k];
    hide Tagged, LinksOnly, Tiled, SmallBinsOK, InBin, InRange, TreeOK, NodeOK;
    assert TreeOK(m, C, i, T);
    CutLinked(m, w, C, end, i, T, p, k);
    CutChained(m, w, C, end, i, T, p, k);
    OwnMember(m, C, i, T, p, k);
    var D, U := Rekind(C, x, Loose), T[p := RemoveAt(T[p], k)];
    LargeSizes(C, end, i);
    forall a | a in D && D[a].kind.Large? ensures Housed(D, i, U, a) {
      HousedBefore(m, C, S, Ts, end, i, a);
      if a in T[p] { InRemoveAt(T[p], k, a); }
    }
    TreeChanged(m, w, C, D, end, S, Ts, i, U, CutOwners(T, p, k));
  }

  lemma LargeSizes(C: Chunks, end: int, i: nat)
    requires Tiled(C, end)
    ensures forall a | OfBin(C, i, a) && C[a].kind.Large? :: C[a].n >= 32
  {
    forall a | OfBin(C, i, a) && C[a].kind.Large? ensures C[a].n >= 32 {
      assert ChunkOK(C, end, a);
    }
  }

  /** The leaf case: the pointer to x becomes null and the bin may empty. */
  lemma UnlinkLeaf(m: Memory, w: Memory, C: Chunks, end: int, S: seq<seq<int>>, Ts: seq<Trie>, i: nat, p: Path)
    requires Heap(m, C, end, S, Ts) && i < 32 && IsLeaf(Ts[i], p) && |Ts[i][p]| == 1 && Detached(m, w, i, Ts[i], p)
    ensures Ts[i][p][0] in C && Unbinned(C, Rekind(C, Ts[i][p][0], Loose), Ts[i][p][0])
    ensures Heap(w, Rekind(C, Ts[i][p][0], Loose), end, S, Ts[i := Ts[i] - {p}])
    ensures LiveKept(m, w, C)
  {
    var T, x := Ts[i], Ts[i][p][0];
    hide Tagged, LinksOnly, Tiled, SmallBinsOK, InBin, InRange, TreeOK, NodeOK, Detached;
    assert TreeOK(m, C, i, T);
    DetachSlot(m, w, C, end, i, T, p);
    DetachTree(m, w, C, end, i, T, p);
    OwnMember(m, C, i, T, p, 0);
    NodeAtMember(m, C, i, T, p);
    var D, U := Rekind(C, x, Loose), T - {p};
    RelabelTree(w, C, D, i, U, p, x);
    LargeSizes(C, end, i);
    if p.Down? {
      UpIn(m, C, i, T, p);
      OwnMember(m, C, i, T, p.up, 0);
    }
    forall a | a in D && D[a].kind.Large? ensures Housed(D, i, U, a) {
      HousedBefore(m, C, S, Ts, end, i, a);
    }
    TreeChanged(m, w, C, D, end, S, Ts, i, U, {if p.Down? then NodeAt(T, p.up) else 0});
  }

  lemma UpIn(m: Memory, C: Chunks, i: nat, T: Trie, p: Path)
    requires TreeOK(m, C, i, T) && p in T && p.Down?
    ensures p.up in T && T[p.up] != []
  {
    TreeNode(m, C, i, T, p);
    TreeNode(m, C, i, T, p.up);
  }

  lemma NodeAtMember(m: Memory, C: Chunks, i: nat, T: Trie, p: Path)
    requires TreeOK(m, C, i, T) && p in T
    ensures T[p] != [] && forall k | 0 <= k < |T[p]| :: T[p][k] in C && C[T[p][k]].kind == Large(p)
  {
    TreeNode(m, C, i, T, p);
    forall k | 0 <= k < |T[p]| ensures T[p][k] in C && C[T[p][k]].kind == Large(p) {
      assert LargeMember(C, p, SizeAt(C, T, p), T[p][k]);
    }
  }

  /** A tree does not notice the relabelling of a chunk that is not in it. */
  lemma RelabelTree(m: Memory, C: Chunks, D: Chunks, i: nat, T: Trie, p: Path, x: int)
    requires TreeOK(m, C, i, T) && p !in T && x in C && C[x].kind == Large(p) && D == Rekind(C, x, Loose)
    ensures TreeOK(m, D, i, T)
  {
    hide InBin, InRange, TreeLinks, Ring;
    forall q | q in T ensures NodeOK(m, D, i, T, q) && SizeAt(D, T, q) == SizeAt(C, T, q) {
      RelabelNode(m, C, D, i, T, p, x, q);
    }
  }

  lemma RelabelNode(m: Memory, C: Chunks, D: Chunks, i: nat, T: Trie, p: Path, x: int, q: Path)
    requires TreeOK(m, C, i, T) && p !in T && x in C && C[x].kind == Large(p) && D == Rekind(C, x, Loose) && q in T
    ensures NodeOK(m, D, i, T, q) && SizeAt(D, T, q) == SizeAt(C, T, q)
  {
    hide InBin, InRange, Ring;
    TreeNode(m, C, i, T, q);
    var s := SizeAt(C, T, q);
    assert LargeMember(C, q, s, T[q][0]);
    forall k | 0 <= k < |T[q]| ensures LargeMember(D, q, s, T[q][k]) {
      assert LargeMember(C, q, s, T[q][k]);
    }
  }

  // ----- The replaced node -----

  function SwapOwners(T: Trie, p: Path, h: int): set<int> {
    {h, NodeAt(T, Down(p, false)), NodeAt(T, Down(p, true)), if p.Down? then NodeAt(T, p.up) else 0}
  }

  lemma SwapLinked(m: Memory, w: Memory, C: Chunks, end: int, i: nat, T: Trie, p: Path, z: Path, s: nat, r: seq<int>)
    requires Tiled(C, end) && TreeBut(m, C, i, T, p) && Spare(m, C, i, T, p, z, s, r) && Swapped(m, w, i, T, p, r[0])
    ensures LinksOnly(m, w, C, end, SwapOwners(T, p, r[0]))
    ensures forall a | a in SwapOwners(T, p, r[0]) :: a == 0 || OfBin(C, i, a)
  {
    hide InBin, InRange, Ring, TreeLinks, NodeOK;
    var h, N := r[0], SwapOwners(T, p, r[0]);
    SpareWhere(m, C, end, i, T, p, z, s, r, 0);
    assert Depth(Down(p, false)) == Depth(Down(p, true)) == Depth(p) + 1;
    SwapOwner(m, C, end, i, T, p, Down(p, false));
    SwapOwner(m, C, end, i, T, p, Down(p, true));
    if p.Down? { SwapOwner(m, C, end, i, T, p, p.up); }
    assert LargeMember(C, z, s, h);
    forall y | !LinkWordOf(C, N, y) ensures At(w, y) == At(m, y) {
      var c0, c1, u := NodeAt(T, Down(p, false)), NodeAt(T, Down(p, true)), if p.Down? then NodeAt(T, p.up) else 0;
      assert h in N && c0 in N && c1 in N && u in N;
      assert !LinkWord(C, h, y) && !LinkWord(C, c0, y) && !LinkWord(C, c1, y) && !LinkWord(C, u, y);
    }
    LinksFrom(m, w, C, end, N);
  }

  lemma SwapOwner(m: Memory, C: Chunks, end: int, i: nat, T: Trie, p: Path, u: Path)
    requires Tiled(C, end) && TreeBut(m, C, i, T, p) && u != p
    ensures var c := NodeAt(T, u); c != 0 ==>
      OfBin(C, i, c) && C[c].kind.Large? && c >= STATE_WORDS && C[c].n >= 32
  {
    hide InBin, InRange, Ring, TreeLinks;
    if NodeAt(T, u) != 0 {
      assert NodeOK(m, C, i, T, u);
      ButWhere(m, C, end, i, T, p, u, 0);
      assert LargeMember(C, u, SizeAt(C, T, u), T[u][0]);
    }
  }

  lemma RelabelChange(C: Chunks, end: int, i: nat, x: int, r: seq<int>, p: Path, s: nat)
    requires Tiled(C, end) && OfBin(C, i, x) && x !in r && InBin(i, s)
    requires forall k | 0 <= k < |r| :: r[k] in C && C[r[k]].kind.Large? && 8 * C[r[k]].n == s
    ensures var D := Relabel(C, x, r, p); BinChange(C, D, i) && (C[x].kind.Large? ==> Unbinned(C, D, x))
  {
    hide InBin;
    LargeSizes(C, end, i);
    forall a | a in r ensures OfBin(C, i, a) && C[a].kind.Large? && C[a].n >= 32 {
      assert ChunkOK(C, end, a);
    }
  }

  /** The replacing step on the whole heap: from u, a memory in which the ring r is spare, the
      swap at p gives a valid heap in which x, the old node, is loose. T is the tree in u. */
  lemma Replace(m: Memory, u: Memory, w: Memory, C: Chunks, end: int, S: seq<seq<int>>, Ts: seq<Trie>, i: nat, T: Trie,
                p: Path, z: Path, s: nat, r: seq<int>, x: int, N: set<int>)
    requires Heap(m, C, end, S, Ts) && i < 32 && LinksOnly(m, u, C, end, N)
    requires forall a | a in N :: a == 0 || OfBin(C, i, a)
    requires forall y | 11 <= y <= 108 && y != TreeBinAt(i) :: At(u, y) == At(m, y)
    requires TreeBut(u, C, i, T, p) && Spare(u, C, i, T, p, z, s, r) && Swapped(u, w, i, T, p, r[0])
    requires OfBin(C, i, x) && C[x].kind.Large? && C[x].kind.path == p && x !in r
    requires forall q | q in Ts[i] :: q == p || q == z || (q in T && T[q] == Ts[i][q])
    requires forall a | a in C && C[a].kind.Large? && InBin(i, 8 * C[a].n) && (C[a].kind.path == p || C[a].kind.path == z) :: a == x || a in r
    ensures var D := Relabel(C, x, r, p);
      Unbinned(C, D, x) && Heap(w, D, end, S, Ts[i := T[p := r]]) && LiveKept(m, w, C)
  {
    hide Tagged, LinksOnly, Tiled, SmallBinsOK, InBin, InRange, NodeOK, Swapped, Ring, TreeBut;
    var D, U := Relabel(C, x, r, p), T[p := r];
    SpareMembers(u, C, i, T, p, z, s, r);
    RelabelChange(C, end, i, x, r, p, s);
    forall k | 0 <= k < |r| ensures LargeMember(D, p, s, r[k]) {
      assert LargeMember(C, z, s, r[k]);
    }
    SwapTree(u, w, C, D, end, i, T, p, z, s, r);
    SwapSlot(u, w, C, end, i, T, p, z, s, r);
    SwapLinked(u, w, C, end, i, T, p, z, s, r);
    var M := SwapOwners(T, p, r[0]);
    LinksCompose(m, u, w, C, end, N, M);
    forall a | a in D && D[a].kind.Large? ensures Housed(D, i, U, a) {
      if a !in r && a != x { HousedBefore(m, C, S, Ts, end, i, a); }
    }
    hide Spare, Relabel;
    TreeChanged(m, w, C, D, end, S, Ts, i, U, N + M);
  }

  lemma SpareMembers(m: Memory, C: Chunks, i: nat, T: Trie, p: Path, z: Path, s: nat, r: seq<int>)
    requires Spare(m, C, i, T, p, z, s, r)
    ensures |r| >= 1 && InBin(i, s)
    ensures forall k | 0 <= k < |r| :: r[k] in C && C[r[k]].kind.Large? && C[r[k]].kind.path == z && 8 * C[r[k]].n == s
  {
    hide InBin, InRange;
    forall k | 0 <= k < |r| ensures r[k] in C && C[r[k]].kind == Large(z) && 8 * C[r[k]].n == s {
      assert LargeMember(C, z, s, r[k]);
    }
  }

  lemma InRest(r: seq<int>, a: int)
    requires |r| >= 2 && a in r
    ensures a == r[0] || a in Rotate(RemoveAt(r, 0))
  {
    var t := Rotate(RemoveAt(r, 0));
    var k :| 0 <= k < |r| && r[k] == a;
    if k > 0 { assert t[if k == |r| - 1 then 0 else k] == a; }
  }

  lemma RestApart(m: Memory, r: seq<int>)
    requires Ring(m, r) && |r| >= 2
    ensures r[0] !in Rotate(RemoveAt(r, 0))
    ensures Rotate(RemoveAt(r, 0))[0] == Prev(r, 0)
  {
    var t := RemoveAt(r, 0);
    forall j | 0 <= j < |Rotate(t)| ensures Rotate(t)[j] != r[0] {
      var o := if j == 0 then |r| - 1 else j;
      assert Rotate(t)[j] == r[o];
      RingDistinct(m, r, 0, o);
    }
  }

  /** The tree node goes and the oldest chunk of its ring takes its place. */
  lemma UnlinkHead(m: Memory, u: Memory, w: Memory, C: Chunks, end: int, S: seq<seq<int>>, Ts: seq<Trie>, i: nat, p: Path)
    requires Heap(m, C, end, S, Ts) && i < 32 && p in Ts[i] && |Ts[i][p]| >= 2 && CutAt(m, u, Ts[i], p, 0)
    requires Swapped(u, w, i, Ts[i], p, Prev(Ts[i][p], 0))
    ensures var x, r := Ts[i][p][0], Rotate(RemoveAt(Ts[i][p], 0)); var D := Relabel(C, x, r, p);
      Unbinned(C, D, x) && Heap(w, D, end, S, Ts[i := Ts[i][p := r]]) && LiveKept(m, w, C)
  {
    hide Tagged, LinksOnly, Tiled, SmallBinsOK, InBin, InRange, NodeOK, Swapped, Ring, CutAt, TreeOK, Spare, TreeBut;
    var T, x := Ts[i], Ts[i][p][0];
    var r := Rotate(RemoveAt(T[p], 0));
    assert TreeOK(m, C, i, T);
    CutHead(m, u, C, end, i, T, p);
    CutLinked(m, u, C, end, i, T, p, 0);
    assert Ring(m, T[p]) by { TreeRing(m, C, i, T, p); }
    RestApart(m, T[p]);
    OwnMember(m, C, i, T, p, 0);
    NodeAtMember(m, C, i, T, p);
    forall a | a in C && C[a].kind.Large? && InBin(i, 8 * C[a].n) && C[a].kind.path == p ensures a == x || a in r {
      HousedBefore(m, C, S, Ts, end, i, a);
      InRest(T[p], a);
    }
    Replace(m, u, w, C, end, S, Ts, i, T, p, p, SizeAt(C, T, p), r, x, CutOwners(T, p, 0));
  }

  lemma TreeRing(m: Memory, C: Chunks, i: nat, T: Trie, p: Path)
    requires TreeOK(m, C, i, T) && p in T
    ensures Ring(m, T[p])
  {
    TreeNode(m, C, i, T, p);
  }

  /** A lone interior node goes and a leaf below it, with its whole ring, takes its place. */
  lemma UnlinkInner(m: Memory, u: Memory, w: Memory, C: Chunks, end: int, S: seq<seq<int>>, Ts: seq<Trie>, i: nat, p: Path, l: Path)
    requires Heap(m, C, end, S, Ts) && i < 32 && p in Ts[i] && |Ts[i][p]| == 1
    requires IsLeaf(Ts[i], l) && l != p && Under(l, p) && Detached(m, u, i, Ts[i], l)
    requires Swapped(u, w, i, Ts[i] - {l}, p, NodeAt(Ts[i], l))
    ensures Ts[i][l] != []
    ensures var x, r := Ts[i][p][0], Ts[i][l]; var D := Relabel(C, x, r, p);
      Unbinned(C, D, x) && Heap(w, D, end, S, Ts[i := (Ts[i] - {l})[p := r]]) && LiveKept(m, w, C)
  {
    hide Tagged, LinksOnly, Tiled, SmallBinsOK, InBin, InRange, NodeOK, Swapped, Ring, Detached, TreeOK, Spare, TreeBut, Under;
    var T, x := Ts[i], Ts[i][p][0];
    var r := T[l];
    assert TreeOK(m, C, i, T);
    LeafSpare(m, u, C, end, i, T, l, p);
    DetachSlot(m, u, C, end, i, T, l);
    OwnMember(m, C, i, T, p, 0);
    NodeAtMember(m, C, i, T, p);
    NodeAtMember(m, C, i, T, l);
    if l.Down? {
      UpIn(m, C, i, T, l);
      OwnMember(m, C, i, T, l.up, 0);
    }
    forall a | a in C && C[a].kind.Large? && InBin(i, 8 * C[a].n) && (C[a].kind.path == p || C[a].kind.path == l)
      ensures a == x || a in r
    {
      HousedBefore(m, C, S, Ts, end, i, a);
    }
    Replace(m, u, w, C, end, S, Ts, i, T - {l}, p, l, SizeAt(C, T, l), r, x, {if l.Down? then NodeAt(T, l.up) else 0});
  }

  // ----- What unlink_large_chunk reads and writes -----

  /** The memory after the parent and the children of x have been relinked to h. */
  function SwapMem(u: Memory, link: int, h: int, xp: int, c0: int, c1: int): Memory
    requires 0 <= link < |u| && 0 <= h && h + 6 < |u|
    requires 0 <= c0 && c0 + 6 < |u| && 0 <= c1 && c1 + 6 < |u|
  {
    var a := u[link := h][h + 6 := xp];
    var b := if c0 != 0 then a[h + 4 := c0][c0 + 6 := h] else a;
    if c1 != 0 then b[h + 5 := c1][c1 + 6 := h] else b
  }

  lemma SwapReads(u: Memory, C: Chunks, end: int, i: nat, T: Trie, p: Path, x: int)
    requires Tiled(C, end) && TreeBut(u, C, i, T, p)
    requires x == NodeAt(T, p) && x in C && C[x].kind == Large(p)
    ensures At(u, TreeBinAt(i)) == x <==> p.Root?
    ensures p.Down? ==> (At(u, NodeAt(T, p.up) + 4) == x <==> !p.bit)
    ensures At(u, x + 4) == NodeAt(T, Down(p, false)) && At(u, x + 5) == NodeAt(T, Down(p, true)) && At(u, x + 7) == i
    ensures At(u, x + 6) == ParentAt(i, T, p) && ParentAt(i, T, p) != 0
  {
    hide InBin, InRange, Ring;
    if p.Down? {
      UpLinks(u, C, i, T, p);
      UpNonzero(u, C, end, i, T, p, p.up);
      Sibling(u, C, end, i, T, p, x, Down(p.up, false));
      Sibling(u, C, end, i, T, p, x, Root);
    }
  }

  lemma ButFromTree(u: Memory, C: Chunks, i: nat, T: Trie, p: Path)
    requires TreeOK(u, C, i, T) && p in T && i < 32
    ensures TreeBut(u, C, i, T, p)
  {
    TreeNode(u, C, i, T, p);
  }

  lemma UpLinks(u: Memory, C: Chunks, i: nat, T: Trie, p: Path)
    requires TreeBut(u, C, i, T, p) && p.Down?
    ensures p.up in T && p.up != p && TreeLinks(u, i, T, p.up)
  {
    assert Depth(p.up) + 1 == Depth(p);
    assert NodeOK(u, C, i, T, p.up);
  }

  lemma UpNonzero(u: Memory, C: Chunks, end: int, i: nat, T: Trie, p: Path, q: Path)
    requires Tiled(C, end) && TreeBut(u, C, i, T, p) && q in T && q != p
    ensures NodeAt(T, q) >= STATE_WORDS
  {
    ButNonempty(u, C, i, T, p, q);
    SwapOwner(u, C, end, i, T, p, q);
    ButWhere(u, C, end, i, T, p, q, 0);
  }

  lemma Sibling(u: Memory, C: Chunks, end: int, i: nat, T: Trie, p: Path, x: int, q: Path)
    requires Tiled(C, end) && TreeBut(u, C, i, T, p) && x == NodeAt(T, p) && x in C && C[x].kind.Large?
    requires C[x].kind.path == p
    ensures q != p ==> NodeAt(T, q) != x
  {
    if q != p && NodeAt(T, q) != 0 { ButWhere(u, C, end, i, T, p, q, 0); }
    assert C[0].kind == InUse;
  }

  lemma SwapBounds(u: Memory, C: Chunks, end: int, i: nat, T: Trie, p: Path, z: Path, s: nat, r: seq<int>)
    requires Tiled(C, end) && Tagged(u, C, end) && TreeBut(u, C, i, T, p) && Spare(u, C, i, T, p, z, s, r)
    ensures |r| >= 1
    ensures var h, c0, c1 := r[0], NodeAt(T, Down(p, false)), NodeAt(T, Down(p, true));
      && 0 <= LinkTo(i, T, p) < |u| && 0 <= h && h + 6 < |u|
      && 0 <= c0 && c0 + 6 < |u| && 0 <= c1 && c1 + 6 < |u|
  {
    hide InBin, InRange, Ring, TreeLinks, NodeOK;
    SpareWhere(u, C, end, i, T, p, z, s, r, 0);
    assert Depth(Down(p, false)) == Depth(Down(p, true)) == Depth(p) + 1;
    assert TagOK(u, C, r[0]) && ChunkOK(C, end, 0) && TagOK(u, C, 0);
    OwnerBounds(u, C, end, i, T, p, Down(p, false));
    OwnerBounds(u, C, end, i, T, p, Down(p, true));
    if p.Down? { OwnerBounds(u, C, end, i, T, p, p.up); }
  }

  lemma OwnerBounds(u: Memory, C: Chunks, end: int, i: nat, T: Trie, p: Path, q: Path)
    requires Tiled(C, end) && Tagged(u, C, end) && TreeBut(u, C, i, T, p) && q != p
    ensures 0 <= NodeAt(T, q) && NodeAt(T, q) + 7 < |u|
  {
    hide InBin, InRange, Ring, TreeLinks;
    assert TagOK(u, C, 0);
    if NodeAt(T, q) != 0 {
      ButWhere(u, C, end, i, T, p, q, 0);
      assert TagOK(u, C, NodeAt(T, q));
    }
  }

  lemma SwapWrites(u: Memory, C: Chunks, end: int, i: nat, T: Trie, p: Path, z: Path, s: nat, r: seq<int>, w: Memory)
    requires Tiled(C, end) && Tagged(u, C, end) && TreeBut(u, C, i, T, p) && Spare(u, C, i, T, p, z, s, r)
    requires |r| >= 1
    requires var h, c0, c1 := r[0], NodeAt(T, Down(p, false)), NodeAt(T, Down(p, true));
      && 0 <= LinkTo(i, T, p) < |u| && 0 <= h && h + 6 < |u|
      && 0 <= c0 && c0 + 6 < |u| && 0 <= c1 && c1 + 6 < |u|
      && w == SwapMem(u, LinkTo(i, T, p), h, ParentAt(i, T, p), c0, c1)
    ensures Swapped(u, w, i, T, p, r[0])
  {
    hide InBin, InRange, Ring, TreeLinks, NodeOK, Tagged;
    SpareWhere(u, C, end, i, T, p, z, s, r, 0);
    assert Depth(Down(p, false)) == Depth(Down(p, true)) == Depth(p) + 1;
    SpareApart(u, C, end, i, T, p, z, s, r, 0, Down(p, false));
    SpareApart(u, C, end, i, T, p, z, s, r, 0, Down(p, true));
    ChildrenApart(u, C, end, i, T, p, Down(p, false), Down(p, true));
    if p.Down? {
      assert Depth(p.up) + 1 == Depth(p);
      SpareApart(u, C, end, i, T, p, z, s, r, 0, p.up);
      ChildrenApart(u, C, end, i, T, p, Down(p, false), p.up);
      ChildrenApart(u, C, end, i, T, p, Down(p, true), p.up);
    }
    hide Tiled, TreeBut, NodeAt;
    assert At(u, r[0] + 4) == 0 && At(u, r[0] + 5) == 0;
  }

  lemma ChildrenApart(u: Memory, C: Chunks, end: int, i: nat, T: Trie, p: Path, a: Path, b: Path)
    requires Tiled(C, end) && TreeBut(u, C, i, T, p) && a != p && b != p && a != b
    ensures var c, d := NodeAt(T, a), NodeAt(T, b); c != 0 && d != 0 ==> c + 8 <= d || d + 8 <= c
  {
    hide InBin, InRange, Ring, TreeLinks;
    if NodeAt(T, a) != 0 && NodeAt(T, b) != 0 {
      SwapNodesApart(u, C, end, i, T, p, a, b, 0);
    }
  }

  lemma LeafWrites(u: Memory, C: Chunks, end: int, i: nat, T: Trie, p: Path)
    requires Tiled(C, end) && Tagged(u, C, end) && TreeBut(u, C, i, T, p)
    ensures 0 <= LinkTo(i, T, p) < |u|
    ensures p.Down? ==> 0 <= NodeAt(T, p.up) && NodeAt(T, p.up) + 7 < |u|
    ensures Detached(u, u[LinkTo(i, T, p) := 0], i, T, p)
  {
    hide InBin, InRange, Ring;
    assert TagOK(u, C, 0);
    if p.Down? {
      assert Depth(p.up) + 1 == Depth(p);
      OwnerBounds(u, C, end, i, T, p, p.up);
    }
  }

  /** One step down the right-most path below p. */
  lemma RightmostStep(m: Memory, C: Chunks, end: int, i: nat, T: Trie, l: Path)
    requires Tiled(C, end) && Tagged(m, C, end) && TreeOK(m, C, i, T) && l in T
    ensures forall b :: var q := Down(l, b);
      && LinkTo(i, T, q) == NodeAt(T, l) + (if b then 5 else 4)
      && At(m, LinkTo(i, T, q)) == NodeAt(T, q) && (NodeAt(T, q) == 0 <==> q !in T)
      && (q in T ==> Open(i, q) >= 0 && Open(i, q) < Open(i, l))
    ensures NodeAt(T, l) > 0 && NodeAt(T, l) + 7 < |m| && Open(i, l) >= 0
  {
    hide InBin, InRange;
    NodeReads(m, C, end, i, T, l);
    TreeOpen(m, C, i, T, l);
    forall b ensures var q := Down(l, b); (NodeAt(T, q) == 0 <==> q !in T) && (q in T ==> Open(i, q) >= 0) {
      NodeNull(m, C, end, i, T, Down(l, b));
      if Down(l, b) in T { TreeOpen(m, C, i, T, Down(l, b)); }
    }
  }

  lemma TreeOpen(m: Memory, C: Chunks, i: nat, T: Trie, p: Path)
    requires TreeOK(m, C, i, T) && p in T
    ensures Open(i, p) >= 0
  {
    TreePlaced(m, C, i, T, p);
  }

  /** The words of x itself are none of those a swap writes. */
  lemma SwapOwnWords(u: Memory, C: Chunks, end: int, i: nat, T: Trie, p: Path, z: Path, s: nat, r: seq<int>, x: int)
    requires Tiled(C, end) && TreeBut(u, C, i, T, p) && Spare(u, C, i, T, p, z, s, r)
    requires x == NodeAt(T, p) && x in C && C[x].kind == Large(p) && C[x].n >= 32 && x !in r
    ensures |r| >= 1
    ensures x + 8 <= r[0] || r[0] + 8 <= x
    ensures LinkTo(i, T, p) < x || x + 8 <= LinkTo(i, T, p)
    ensures var c0 := NodeAt(T, Down(p, false)); c0 == 0 || x + 8 <= c0 || c0 + 8 <= x
  {
    hide InBin, InRange, Ring, TreeLinks;
    SpareWhere(u, C, end, i, T, p, z, s, r, 0);
    assert r[0] in r;
    assert ChunkOK(C, end, x) && Apart(C, x, r[0]);
    assert Depth(Down(p, false)) == Depth(p) + 1;
    NodeOff(u, C, end, i, T, p, x, Down(p, false));
    if p.Down? {
      assert Depth(p.up) + 1 == Depth(p);
      NodeOff(u, C, end, i, T, p, x, p.up);
      UpNonzero(u, C, end, i, T, p, p.up);
    }
  }

  lemma NodeOff(u: Memory, C: Chunks, end: int, i: nat, T: Trie, p: Path, x: int, q: Path)
    requires Tiled(C, end) && TreeBut(u, C, i, T, p) && x == NodeAt(T, p) && x in C && C[x].kind == Large(p) && C[x].n >= 32 && q != p
    ensures NodeAt(T, q) == 0 || x + 8 <= NodeAt(T, q) || NodeAt(T, q) + 8 <= x
  {
    hide InBin, InRange, Ring, TreeLinks;
    if NodeAt(T, q) != 0 {
      ButWhere(u, C, end, i, T, p, q, 0);
      assert Apart(C, x, NodeAt(T, q));
    }
  }

  /** The bin, position and ring place of a large chunk, and what its own words say of them. */
  lemma WhereLarge(m: Memory, C: Chunks, end: int, S: seq<seq<int>>, Ts: seq<Trie>, x: int) returns (i: nat, p: Path, k: nat)
    requires Heap(m, C, end, S, Ts) && x in C && C[x].kind.Large?
    ensures i < 32 && C[x].kind == Large(p) && p in Ts[i] && k < |Ts[i][p]| && Ts[i][p][k] == x
    ensures TreeOK(m, C, i, Ts[i]) && Tiled(C, end) && Tagged(m, C, end)
    ensures C[x].n >= 32 && x >= STATE_WORDS && x + 7 < |m|
    ensures Fd(m, x) == Next(Ts[i][p], k) && Bk(m, x) == Prev(Ts[i][p], k)
    ensures Bk(m, x) != x <==> |Ts[i][p]| >= 2
    ensures At(m, x + 6) == if k == 0 then ParentAt(i, Ts[i], p) else 0
    ensures k == 0 ==> ParentAt(i, Ts[i], p) != 0
  {
    hide InBin, InRange;
    i, p, k := HomeOf(m, C, end, S, Ts, x);
    var T := Ts[i];
    TreeNode(m, C, i, T, p);
    NodeWhere(m, C, end, i, T, p, k);
    assert TagOK(m, C, x);
    assert LinkAt(m, T[p], k);
    if |T[p]| >= 2 { RingDistinct(m, T[p], k, if k == 0 then |T[p]| - 1 else k - 1); }
    if k == 0 {
      ButFromTree(m, C, i, T, p);
      SwapReads(m, C, end, i, T, p, x);
    } else {
      assert ChainLinks(m, i, x);
    }
  }

  lemma HomeOf(m: Memory, C: Chunks, end: int, S: seq<seq<int>>, Ts: seq<Trie>, x: int) returns (i: nat, p: Path, k: nat)
    requires Heap(m, C, end, S, Ts) && x in C && C[x].kind.Large?
    ensures i < 32 && C[x].kind == Large(p) && p in Ts[i] && k < |Ts[i][p]| && Ts[i][p][k] == x
    ensures TreeOK(m, C, i, Ts[i]) && Tiled(C, end) && Tagged(m, C, end)
  {
    hide TreeIndex;
    assert InTreeBin(C, Ts, x);
    i, p := TreeIndex(8 * C[x].n), C[x].kind.path;
    assert TreeOK(m, C, i, Ts[i]);
    k :| 0 <= k < |Ts[i][p]| && Ts[i][p][k] == x;
  }

  /** The two ring writes of unlink_large_chunk. */
  lemma CutFromRing(m: Memory, C: Chunks, end: int, i: nat, T: Trie, p: Path, k: nat)
    requires Tiled(C, end) && Tagged(m, C, end) && TreeOK(m, C, i, T) && p in T && k < |T[p]| && |T[p]| >= 2 && i < 32
    ensures var f, b := Next(T[p], k), Prev(T[p], k);
      && 0 <= f && f + 3 < |m| && 0 < b && b + 3 < |m|
      && CutAt(m, m[f + 3 := b][b + 2 := f], T, p, k)
      && Tagged(m[f + 3 := b][b + 2 := f], C, end)
  {
    hide InBin, InRange, Ring, Tagged;
    TreeNode(m, C, i, T, p);
    var r := T[p];
    RemoveRing(m, r, k);
    var f, b := Next(r, k), Prev(r, k);
    NextPrevClear(m, r, k);
    NodeWhere(m, C, end, i, T, p, if k == 0 then |r| - 1 else k - 1);
    CutWords(m, f, b);
    CutLinked(m, Cut(m, f, b), C, end, i, T, p, k);
    LinksTagged(m, Cut(m, f, b), C, end, CutOwners(T, p, k));
  }

  lemma NextPrevClear(m: Memory, r: seq<int>, k: nat)
    requires Ring(m, r) && k < |r|
    ensures Next(r, k) == Prev(r, k) || Clear(Prev(r, k), Next(r, k))
  {
    var a, b := (if k + 1 < |r| then k + 1 else 0), (if k == 0 then |r| - 1 else k - 1);
    if a != b { assert Clear(if a < b then r[a] else r[b], if a < b then r[b] else r[a]); }
  }

  lemma DetachTagged(m: Memory, w: Memory, C: Chunks, end: int, i: nat, T: Trie, l: Path)
    requires Tiled(C, end) && Tagged(m, C, end) && TreeOK(m, C, i, T) && IsLeaf(T, l) && Detached(m, w, i, T, l) && i < 32
    ensures Tagged(w, C, end)
  {
    hide Tiled, Tagged, TreeOK, Detached, LinksOnly;
    DetachSlot(m, w, C, end, i, T, l);
    LinksTagged(m, w, C, end, {if l.Down? then NodeAt(T, l.up) else 0});
  }
}
