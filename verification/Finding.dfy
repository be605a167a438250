/** bin_find: walking the bin that a chunk's size selects, to see whether the chunk is in it. */
module Finding {
  import opened BinMaps
  import opened Sizes
  import opened Layout
  import opened Tags
  import R = Rings
  import opened Paths
  import opened Bins
  import opened SmallOps
  import opened TreeOps
  import opened TreeUnlink
  import opened Search
  import opened States
  import opened Mspaces

  // ----- Along a ring -----

  /** From head along fd until head comes round again. */
  method InRing(ms: Mspace, head: int, x: int, ghost r: seq<int>) returns (found: bool)
    requires R.Ring(ms.mem[..], r) && r[0] == head
    ensures found <==> x in r
  {
    var p := head;
    ghost var k := 0;
    while true
      invariant k < |r| && p == r[k] && x !in r[..k]
      decreases |r| - k
    {
      if p == x { return true; }
      assert R.LinkAt(ms.mem[..], r, k);
      if k + 1 < |r| { RingDistinct(ms.mem[..], r, 0, k + 1); }
      p := ms.Get(p + 2);
      k := k + 1;
      if p == head { return false; }
    }
  }

  // ----- Down a tree -----

  /** The search for size s stands at p: the bits of s lead there, and no node above p has it. */
  ghost predicate Looking(C: Chunks, i: nat, T: Trie, p: Path, s: nat, k: nat) {
    Justified(i, p, s, k) && NoneAbove(C, T, p, s)
  }

  lemma LookStart(C: Chunks, T: Trie, i: nat, s: nat)
    requires i < 32 && InBin(i, s) && s < SIZE_T_LIMIT
    ensures Looking(C, i, T, Root, s, SizeBits(i, s))
  {
    hide InBin;
    JustifiedStart(i, s);
  }

  lemma LookStep(m: Memory, C: Chunks, i: nat, T: Trie, p: Path, s: nat, k: nat)
    requires TreeOK(m, C, i, T) && p in T && Looking(C, i, T, p, s, k) && SizeAt(C, T, p) != s
    ensures Open(i, p) >= 1 && Looking(C, i, T, Down(p, SignBit(k)), s, Shl64(k))
  {
    hide TreeOK, InBin, InRange, SizeAt, SignBit, Shl64, NoneAbove, Pow2, Lo;
    TreePlaced(m, C, i, T, p);
    OpenBits(i, p, SizeAt(C, T, p), s);
    JustifiedStep(i, p, s, k);
    NoneAboveStep(C, T, p, SignBit(k), s);
  }

  lemma LookedAll(m: Memory, C: Chunks, i: nat, T: Trie, p: Path, s: nat, k: nat)
    requires TreeOK(m, C, i, T) && p !in T && Looking(C, i, T, p, s, k)
    ensures forall q | q in T :: SizeAt(C, T, q) != s
  {
    NotInTree(m, C, i, T, p, s);
  }

  /** The loop over the size bits: the node of size s, or null when the tree has none. */
  method FindNode(ms: Mspace, i: nat, s: nat) returns (t: int, ghost p: Path)
    requires Heap(ms.mem[..], ms.C, ms.end, ms.S, ms.Ts) && i < 32 && InBin(i, s) && s < SIZE_T_LIMIT
    ensures t == 0 ==> forall q | q in ms.Ts[i] :: SizeAt(ms.C, ms.Ts[i], q) != s
    ensures t != 0 ==> p in ms.Ts[i] && t == NodeAt(ms.Ts[i], p) && SizeAt(ms.C, ms.Ts[i], p) == s
  {
    hide Heap, Tiled, Tagged, TreeOK, InBin, Looking, SignBit, Shl64, SizeBits, ChunkSize, SizeAt, NodeAt, Open;
    ghost var m, C := ms.mem[..], ms.C;
    SteadyTree(m, C, ms.end, ms.S, ms.Ts, i);
    ghost var T := ms.Ts[i];
    StateBounds(m, C, ms.end);
    TreeSlot(m, C, i, T);
    t := ms.Get(TreeBinAt(i));
    p := Root;
    var k := SizeBits(i, s);
    LookStart(C, T, i, s);
    NodeNull(m, C, ms.end, i, T, p);
    if t != 0 { NodeReads(m, C, ms.end, i, T, p); }
    while t != 0 && ChunkSize(ms.Get(t + 1)) != s
      invariant t == NodeAt(T, p) && (t == 0 <==> p !in T) && Looking(C, i, T, p, s, k)
      invariant t != 0 ==> 0 <= t && t + 7 < |m| && ChunkSize(At(m, t + 1)) == SizeAt(C, T, p)
      decreases Open(i, p)
    {
      NodeReads(m, C, ms.end, i, T, p);
      LookStep(m, C, i, T, p, s, k);
      ghost var q := Down(p, SignBit(k));
      NodeNull(m, C, ms.end, i, T, q);
      t := ms.Get(t + if SignBit(k) then 5 else 4);
      OpenDown(i, p, SignBit(k));
      k := Shl64(k);
      p := q;
      if t != 0 { NodeReads(m, C, ms.end, i, T, p); }
    }
    if t == 0 { LookedAll(m, C, i, T, p, s, k); }
  }

  lemma OpenDown(i: nat, p: Path, b: bool)
    ensures Open(i, Down(p, b)) == Open(i, p) - 1
  {}

  // ----- The bin of a chunk -----

  lemma SizeRead(m: Memory, C: Chunks, end: int, x: int)
    requires Tiled(C, end) && Tagged(m, C, end) && x in C
    ensures 0 <= x && x + 1 < |m| && ChunkSize(At(m, x + 1)) == 8 * C[x].n && 8 * C[x].n <= 8 * end
    ensures x == 0 || x >= STATE_WORDS
    ensures Binned(C[x]) ==> (C[x].kind == Small <==> IsSmall(8 * C[x].n))
  {
    assert ChunkOK(C, end, x) && TagOK(m, C, x);
    HeadFields(C[x]);
  }

  lemma SmallHome(m: Memory, C: Chunks, end: int, S: seq<seq<int>>, Ts: seq<Trie>, x: int)
    requires Heap(m, C, end, S, Ts) && x in C && C[x].n < 32 && (x == 0 || x >= STATE_WORDS)
    ensures |S| == 32 && (S[C[x].n] != [] ==> R.Ring(m, SmallRing(C[x].n, S[C[x].n])))
    ensures C[x].kind == Small <==> x in S[C[x].n]
    ensures x in SmallRing(C[x].n, S[C[x].n]) <==> x in S[C[x].n]
  {
    var i := C[x].n;
    assert SmallBinOK(m, C, S[i], i);
    if C[x].kind == Small { assert InSmallBin(C, S, x); }
    if x in S[i] {
      var k :| 0 <= k < |S[i]| && S[i][k] == x;
      assert SmallMember(C, i, S[i][k]);
    }
  }

  /** A chunk of the size of node p is in its ring exactly when it is in a tree bin. */
  lemma LargeHome(m: Memory, C: Chunks, end: int, S: seq<seq<int>>, Ts: seq<Trie>, x: int, i: nat, p: Path)
    requires Heap(m, C, end, S, Ts) && x in C && i < 32 && |Ts| == 32 && InBin(i, 8 * C[x].n)
    requires p in Ts[i] && SizeAt(C, Ts[i], p) == 8 * C[x].n
    ensures R.Ring(m, Ts[i][p]) && Ts[i][p][0] == NodeAt(Ts[i], p)
    ensures x in Ts[i][p] <==> C[x].kind.Large?
  {
    hide InBin, InRange, SizeAt;
    SteadyTree(m, C, end, S, Ts, i);
    TreeNode(m, C, i, Ts[i], p);
    if C[x].kind.Large? { LargeAtSize(m, C, end, S, Ts, x, i, p); }
    if x in Ts[i][p] {
      var k :| 0 <= k < |Ts[i][p]| && Ts[i][p][k] == x;
      assert LargeMember(C, p, SizeAt(C, Ts[i], p), Ts[i][p][k]);
    }
  }

  lemma LargeAtSize(m: Memory, C: Chunks, end: int, S: seq<seq<int>>, Ts: seq<Trie>, x: int, i: nat, p: Path)
    requires Heap(m, C, end, S, Ts) && x in C && i < 32 && |Ts| == 32 && InBin(i, 8 * C[x].n) && C[x].kind.Large?
    requires p in Ts[i] && SizeAt(C, Ts[i], p) == 8 * C[x].n
    ensures x in Ts[i][p]
  {
    hide InBin, InRange;
    var j, q, k := WhereLarge(m, C, end, S, Ts, x);
    TreeNode(m, C, j, Ts[j], q);
    assert LargeMember(C, q, SizeAt(C, Ts[j], q), Ts[j][q][k]);
    PlacedAt(m, C, j, Ts[j], q);
    BinsOrdered(i, 8 * C[x].n, j, 8 * C[x].n);
    BinsOrdered(j, 8 * C[x].n, i, 8 * C[x].n);
    SameSizeNode(m, C, i, Ts[i], p, q);
  }

  lemma SameSizeNode(m: Memory, C: Chunks, i: nat, T: Trie, p: Path, q: Path)
    requires TreeOK(m, C, i, T) && p in T && q in T && SizeAt(C, T, p) == SizeAt(C, T, q)
    ensures p == q
  {}

  lemma NoLargeHome(m: Memory, C: Chunks, end: int, S: seq<seq<int>>, Ts: seq<Trie>, x: int, i: nat)
    requires Heap(m, C, end, S, Ts) && x in C && i < 32 && |Ts| == 32 && InBin(i, 8 * C[x].n)
    requires forall q | q in Ts[i] :: SizeAt(C, Ts[i], q) != 8 * C[x].n
    ensures !C[x].kind.Large?
  {
    hide InBin, InRange;
    if C[x].kind.Large? {
      var j, q := LargeAt(m, C, end, Ts, x);
      BinsOrdered(i, 8 * C[x].n, j, 8 * C[x].n);
      BinsOrdered(j, 8 * C[x].n, i, 8 * C[x].n);
      assert false;
    }
  }

  /** bin_find: of any chunk, whether it is in a bin. */
  method BinFind(ms: Mspace, x: int) returns (found: bool)
    requires ms.Valid() && x in ms.C
    ensures found <==> Binned(ms.C[x])
  {
    hide Heap, Tiled, Tagged, MapsOK, Marked, InBin, SizeAt, TreeIndex, ChunkSize, DvOK, TopOK, Settled;
    ghost var m, C := ms.mem[..], ms.C;
    BinsSteady(m, C, ms.end, ms.S, ms.Ts);
    SizeRead(m, C, ms.end, x);
    var size := ChunkSize(ms.Get(x + 1));
    if IsSmall(size) {
      var i := SmallIndex(size);
      MapBit(ms.S, ms.Ts, ms.smallmap, ms.treemap, i);
      SmallHome(m, C, ms.end, ms.S, ms.Ts, x);
      found := false;
      if Marked(ms.smallmap, i) {
        found := InRing(ms, SmallBinAt(i), x, SmallRing(i, ms.S[i]));
      }
    } else {
      TreeIndexBrackets(size);
      var i := TreeIndex(size);
      MapBit(ms.S, ms.Ts, ms.smallmap, ms.treemap, i);
      found := false;
      if Marked(ms.treemap, i) {
        ghost var p;
        var t;
        t, p := FindNode(ms, i, size);
        if t != 0 {
          LargeHome(m, C, ms.end, ms.S, ms.Ts, x, i, p);
          found := InRing(ms, t, x, ms.Ts[i][p]);
        } else {
          NoLargeHome(m, C, ms.end, ms.S, ms.Ts, x, i);
        }
      } else {
        EmptyBin(m, C, ms.end, ms.S, ms.Ts, i);
        NoLargeHome(m, C, ms.end, ms.S, ms.Ts, x, i);
      }
    }
  }

  lemma EmptyBin(m: Memory, C: Chunks, end: int, S: seq<seq<int>>, Ts: seq<Trie>, i: nat)
    requires Heap(m, C, end, S, Ts) && i < 32 && |Ts| == 32 && Root !in Ts[i]
    ensures forall q :: q !in Ts[i]
  {
    hide TreeOK;
    SteadyTree(m, C, end, S, Ts, i);
    forall q ensures q !in Ts[i] {
      if q in Ts[i] { RootIn(m, C, i, Ts[i], q); }
    }
  }
}
