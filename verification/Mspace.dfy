/** An mspace over one fixed segment: create, malloc, free, realloc and memalign, and the macros they use. */
module Mspaces {
  import opened BinMaps
  import opened Sizes
  import opened Layout
  import opened Tags
  import R = Rings
  import opened Paths
  import opened Bins
  import opened SmallOps
  import opened TreeOps
  import opened TreeUnlink
  import opened Search
  import opened Moves
  import opened States
  import opened Freeing
  import opened Reshape
  import opened Blocks
  import opened Resizing
  import opened Words
  import opened Align
  import opened Plans

  class Mspace {
    const mem: array<int>
    const end: int

    var smallmap: bv32
    var treemap: bv32
    var dvsize: nat
    var topsize: nat
    var dv: int
    var top: int

    // The abstract state the memory stands for.
    ghost var C: Chunks
    ghost var S: seq<seq<int>>
    ghost var Ts: seq<Trie>

    /** Everything holds but that chunks may be loose. */
    ghost predicate Steady()
      reads this, mem
    {
      && Heap(mem[..], C, end, S, Ts) && 8 * end < SIZE_T_LIMIT
      && MapsOK(S, Ts, smallmap, treemap) && DvOK(C, dv, dvsize) && TopOK(C, top, topsize)
    }

    /** The live blocks and what they hold. */
    ghost function Allocated(): BlockMap
      reads this, mem
    {
      Live(mem[..], C)
    }

    function Get(x: int): (v: int)
      requires 0 <= x < mem.Length
      reads mem
      ensures v == At(mem[..], x)
    {
      mem[x]
    }

    method Put(x: int, v: int)
      requires 0 <= x < mem.Length
      modifies mem
      ensures mem[..] == old(mem[..])[x := v]
    {
      mem[x] := v;
    }

    /** init_user_mstate over the words of base: an empty small bin and tree bin for each index,
        no dv, and one free chunk, top, from the malloc_state to the foot of the segment. */
    constructor OverBase(base: array<int>)
      requires 8 * base.Length > STATE_SIZE + TOP_FOOT_SIZE && 8 * base.Length < SIZE_T_LIMIT
      modifies base
      ensures mem == base && Valid() && C == InitialChunks(base.Length)
    {
      hide Heap;
      mem := base;
      end := base.Length - TOP_FOOT_SIZE / 8;
      smallmap, treemap, dvsize, dv := 0, 0, 0, 0;
      top := STATE_WORDS;
      topsize := 8 * base.Length - STATE_SIZE - TOP_FOOT_SIZE;
      C := InitialChunks(base.Length);
      S := seq(32, i => []);
      Ts := seq(32, i => map[]);
      new;
      for x := 2 to 2 + STATE_WORDS
        modifies base
        invariant forall y | 2 <= y < x :: mem[y] == 0
      {
        mem[x] := 0;
      }
      mem[1] := STATE_SIZE + 3;
      for i := 0 to 32
        modifies base
        invariant mem[1] == STATE_SIZE + 3 && forall j: nat | j < 32 :: mem[TreeBinAt(j)] == 0
      {
        mem[SmallBinAt(i) + 2] := SmallBinAt(i);
        mem[SmallBinAt(i) + 3] := SmallBinAt(i);
      }
      mem[top + 1] := topsize + 1;
      mem[top + topsize / 8 + 1] := TOP_FOOT_SIZE;
      InitialHeap(mem[..], base.Length);
      NoneMarked();
    }

    /** create_mspace_with_base: null when the capacity is out of range. */
    static method CreateWithBase(base: array<int>, pageSize: nat) returns (ms: Mspace?)
      requires 8 * base.Length < SIZE_T_LIMIT && pageSize < SIZE_T_LIMIT - STATE_SIZE - TOP_FOOT_SIZE
      modifies base
      ensures ms == null <==>
        !(STATE_SIZE + TOP_FOOT_SIZE < 8 * base.Length < SIZE_T_LIMIT - (STATE_SIZE + TOP_FOOT_SIZE + pageSize))
      ensures ms == null ==> base[..] == old(base[..])
      ensures ms != null ==> fresh(ms) && ms.mem == base && ms.Valid() && NoBlocks(ms.C)
    {
      var capacity := 8 * base.Length;
      ms := null;
      if capacity > STATE_SIZE + TOP_FOOT_SIZE && capacity < SIZE_T_LIMIT - (STATE_SIZE + TOP_FOOT_SIZE + pageSize) {
        ms := new Mspace.OverBase(base);
      }
    }

    method InsertSmallChunk(p: int, s: nat)
      requires Steady() && p in C && C[p].kind == Loose && 8 * C[p].n == s && IsSmall(s)
      modifies this`smallmap, this`C, this`S, mem
      ensures Steady() && C == Rekind(old(C), p, Small)
      ensures SmallIndex(s) < |old(S)| && S == old(S)[SmallIndex(s) := [p] + old(S)[SmallIndex(s)]]
      ensures LiveKept(old(mem[..]), mem[..], old(C))
    {
      hide Heap, Marked, BinMaps.Mark, MapsOK, DvOK, TopOK, LiveKept, R.Next;
      ghost var m := mem[..];
      var i := SmallIndex(s);
      var b := SmallBinAt(i);
      var f := b;
      InsertSmall(m, C, end, S, Ts, p);
      ghost var sm := smallmap;
      MapBit(S, Ts, smallmap, treemap, i);
      if !Marked(smallmap, i) {
        smallmap := BinMaps.Mark(smallmap, i);
      } else {
        FirstSmall(m, C, end, S, Ts, i);
        f := Get(b + 2);
      }
      assert f == R.Next(SmallRing(i, S[i]), 0) by { FirstNext(i, S[i]); }
      Put(b + 2, p);
      Put(f + 3, p);
      Put(p + 2, f);
      Put(p + 3, b);
      assert mem[..] == R.Join(m, b, p, f);
      SmallMapStep(S, Ts, sm, treemap, i, [p] + S[i], smallmap);
      DvTopKept(C, Rekind(C, p, Small), dv, dvsize, top, topsize);
      C := Rekind(C, p, Small);
      S := S[i := [p] + S[i]];
    }
  
    /** unlink_small_chunk */
    method UnlinkSmallChunk(p: int, s: nat)
      requires Steady() && p in C && C[p].kind == Small && 8 * C[p].n == s
      modifies this`smallmap, this`C, this`S, mem
      ensures Steady() && C == Rekind(old(C), p, Loose)
      ensures LiveKept(old(mem[..]), mem[..], old(C))
    {
      hide Heap, Marked, BinMaps.Clear, MapsOK, DvOK, TopOK, LiveKept;
      ghost var m, sm := mem[..], smallmap;
      ghost var k := WhereSmall(m, C, end, S, Ts, p);
      var i := SmallIndex(s);
      UnlinkSmall(m, C, end, S, Ts, i, k);
      ChunkBounds(m, C, end, S, Ts, p);
      MapBit(S, Ts, smallmap, treemap, i);
      var f, b := Get(p + 2), Get(p + 3);
      if f == b {
        smallmap := BinMaps.Clear(smallmap, i);
      } else {
        Put(f + 3, b);
        Put(b + 2, f);
      }
      assert mem[..] == Unlinked(m, f, b);
      SmallMapStep(S, Ts, sm, treemap, i, R.RemoveAt(S[i], k), smallmap);
      DvTopKept(C, Rekind(C, p, Loose), dv, dvsize, top, topsize);
      C := Rekind(C, p, Loose);
      S := S[i := R.RemoveAt(S[i], k)];
    }

    /** unlink_first_small_chunk: p is the first chunk of bin i, whose header is b. */
    method UnlinkFirstSmallChunk(b: int, p: int, i: nat)
      requires Steady() && i < 32 && S[i] != [] && b == SmallBinAt(i) && p == S[i][0]
      modifies this`smallmap, this`C, this`S, mem
      ensures Steady() && SmallMember(old(C), i, p) && C == Rekind(old(C), p, Loose)
      ensures i < |old(S)| && old(S)[i] != [] && S == old(S)[i := R.RemoveAt(old(S)[i], 0)]
      ensures LiveKept(old(mem[..]), mem[..], old(C))
    {
      hide Heap, Marked, BinMaps.Clear, MapsOK, DvOK, TopOK, LiveKept, R.Linked;
      ghost var m, sm := mem[..], smallmap;
      UnlinkSmall(m, C, end, S, Ts, i, 0);
      FirstSmallBack(m, C, end, S, Ts, i);
      ChunkBounds(m, C, end, S, Ts, p);
      MapBit(S, Ts, smallmap, treemap, i);
      var f := Get(p + 2);
      if b == f {
        smallmap := BinMaps.Clear(smallmap, i);
      } else {
        Put(b + 2, f);
        Put(f + 3, b);
      }
      assert mem[..] == Unlinked(m, f, b);
      SmallMapStep(S, Ts, sm, treemap, i, R.RemoveAt(S[i], 0), smallmap);
      DvTopKept(C, Rekind(C, p, Loose), dv, dvsize, top, topsize);
      C := Rekind(C, p, Loose);
      S := S[i := R.RemoveAt(S[i], 0)];
    }

    /** The writes of insert_large_chunk at a vacant position q, whose link word is c. */
    method HangChunk(x: int, c: int, parent: int, ghost m: Memory, ghost i: nat, ghost q: Path, ghost tm: bv32)
      requires Heap(m, C, end, S, Ts) && MapsOK(S, Ts, smallmap, tm) && DvOK(C, dv, dvsize) && TopOK(C, top, topsize)
      requires 8 * end < SIZE_T_LIMIT && i < 32 && CanHang(m, C, i, Ts[i], q, x) && Fresh(m, mem[..], i, x)
      requires c == LinkTo(i, Ts[i], q) && parent == ParentAt(i, Ts[i], q)
      requires treemap == if Marked(tm, i) then tm else BinMaps.Mark(tm, i)
      modifies this`C, this`Ts, mem
      ensures Steady() && C == Rekind(old(C), x, Large(q))
      ensures LiveKept(m, mem[..], old(C))
    {
      hide Heap, Marked, BinMaps.Mark, MapsOK, DvOK, TopOK, LiveKept, CanHang, Tiled, Tagged, TreeOK;
      ghost var v := mem[..];
      SteadyTree(m, C, end, S, Ts, i);
      HangBounds(m, C, end, i, Ts[i], q, x);
      Put(c, x);
      Put(x + 6, parent);
      Put(x + 3, x);
      Put(x + 2, x);
      HungFromFresh(m, v, mem[..], C, end, i, Ts[i], q, x);
      InsertLeaf(m, mem[..], C, end, S, Ts, i, q, x);
      HangRoot(m, C, i, Ts[i], q, x);
      TreeMapStep(S, Ts, smallmap, tm, i, Ts[i][q := [x]], treemap);
      DvTopKept(C, Rekind(C, x, Large(q)), dv, dvsize, top, topsize);
      Ts := Ts[i := Ts[i][q := [x]]];
      C := Rekind(C, x, Large(q));
    }

    /** The writes of insert_large_chunk behind a node t of the same size, at position p. */
    method ChainChunk(x: int, t: int, ghost m: Memory, ghost i: nat, ghost p: Path)
      requires Heap(m, C, end, S, Ts) && MapsOK(S, Ts, smallmap, treemap) && DvOK(C, dv, dvsize) && TopOK(C, top, topsize)
      requires 8 * end < SIZE_T_LIMIT && i < 32 && CanChain(m, C, i, Ts[i], p, x) && Fresh(m, mem[..], i, x) && t == NodeAt(Ts[i], p)
      modifies this`C, this`Ts, mem
      ensures Steady() && C == Rekind(old(C), x, Large(p))
      ensures LiveKept(m, mem[..], old(C))
    {
      hide Heap, Marked, MapsOK, DvOK, TopOK, LiveKept, Tiled, Tagged, TreeOK, R.Next, R.InsertAfter, SizeAt, ChunkSize, Chained, CanChain, Fresh;
      ghost var v := mem[..];
      SteadyTree(m, C, end, S, Ts, i);
      CanChainParts(m, C, i, Ts[i], p, x);
      ChainedFromFresh(m, v, C, end, i, Ts[i], p, x);
      NodeReads(m, C, end, i, Ts[i], p);
      FreshReads(m, v, C, end, i, Ts[i], p, x);
      var f := Get(t + 2);
      Put(f + 3, x);
      Put(t + 2, x);
      Put(x + 2, f);
      Put(x + 3, t);
      Put(x + 6, 0);
      ghost var r := Ts[i][p];
      assert mem[..] == R.Join(v, r[0], x, R.Next(r, 0))[x + 6 := 0];
      InsertChain(m, mem[..], C, end, S, Ts, i, p, x);
      RootIn(m, C, i, Ts[i], p);
      MapBit(S, Ts, smallmap, treemap, i);
      TreeMapStep(S, Ts, smallmap, treemap, i, Ts[i][p := R.InsertAfter(r, x)], treemap);
      DvTopKept(C, Rekind(C, x, Large(p)), dv, dvsize, top, topsize);
      Ts := Ts[i := Ts[i][p := R.InsertAfter(r, x)]];
      C := Rekind(C, x, Large(p));
    }

    /** insert_large_chunk */
    method InsertLargeChunk(x: int, s: nat)
      requires Steady() && x in C && C[x].kind == Loose && 8 * C[x].n == s && MIN_LARGE_SIZE <= s < SIZE_T_LIMIT
      modifies this`treemap, this`C, this`Ts, mem
      ensures Steady() && x in C && C[x].kind.Large? && C == Rekind(old(C), x, C[x].kind)
      ensures LiveKept(old(mem[..]), mem[..], old(C))
    {
      hide Heap, Marked, BinMaps.Mark, MapsOK, DvOK, TopOK, LiveKept, TreeIndex, InBin, InRange, Tiled, Tagged, TreeOK, CanHang;
      ghost var m, tm := mem[..], treemap;
      TreeIndexBrackets(s);
      var i := TreeIndex(s);
      SteadyTree(m, C, end, S, Ts, i);
      LooseBounds(m, C, end, x);
      var h := TreeBinAt(i);
      Put(x + 7, i);
      Put(x + 5, 0);
      Put(x + 4, 0);
      MapBit(S, Ts, smallmap, treemap, i);
      if !Marked(treemap, i) {
        treemap := BinMaps.Mark(treemap, i);
        HangAtRoot(m, C, i, Ts[i], x);
        HangChunk(x, h, h, m, i, Root, tm);
      } else {
        Descend(x, s, i, m);
      }
    }

    /** The loop of insert_large_chunk, from the root of a marked bin down. */
    method Descend(x: int, s: nat, i: nat, ghost m: Memory)
      requires Heap(m, C, end, S, Ts) && MapsOK(S, Ts, smallmap, treemap) && DvOK(C, dv, dvsize) && TopOK(C, top, topsize)
      requires 8 * end < SIZE_T_LIMIT && i < 32 && Marked(treemap, i) && Root in Ts[i] && Insertable(m, C, i, Ts[i], x)
      requires 8 * C[x].n == s && Fresh(m, mem[..], i, x)
      modifies this`C, this`Ts, mem
      ensures Steady() && x in C && C[x].kind.Large? && C == Rekind(old(C), x, C[x].kind)
      ensures LiveKept(m, mem[..], old(C))
    {
      hide Heap, Marked, MapsOK, DvOK, TopOK, LiveKept, Tiled, Tagged, Insertable, Fresh, CanHang, Seeking;
      hide SignBit, Shl64, SizeBits, ChunkSize;
      SteadyTree(m, C, end, S, Ts, i);
      ghost var v, T := mem[..], Ts[i];
      InsertableParts(m, C, i, T, x);
      SlotReads(m, v, C, end, i, T, x);
      var t := Get(TreeBinAt(i));
      var k := SizeBits(i, s);
      ghost var p := Root;
      SeekStart(m, C, i, T, x);
      while true
        invariant mem[..] == v && C == old(C) && Ts == old(Ts)
        invariant Seeking(m, C, i, T, p, x, k) && t == NodeAt(T, p)
        decreases Open(i, p)
      {
        SeekingParts(m, C, i, T, p, x, k);
        NodeReads(m, C, end, i, T, p);
        FreshReads(m, v, C, end, i, T, p, x);
        if ChunkSize(Get(t + 1)) != s {
          SeekStep(m, C, i, T, p, x, k);
          var c := t + (if SignBit(k) then 5 else 4);
          ghost var q := Down(p, SignBit(k));
          NodeNull(m, C, end, i, T, q);
          k := Shl64(k);
          if Get(c) != 0 {
            t := Get(c);
            p := q;
          } else {
            HangChunk(x, c, t, m, i, q, treemap);
            return;
          }
        } else {
          ChainChunk(x, t, m, i, p);
          return;
        }
      }
    }

    /** The link that led to x, from its parent or from the bin's slot, now names r. */
    method RelinkParent(x: int, xp: int, r: int, ghost i: nat, ghost T: Trie, ghost p: Path)
      requires Tiled(C, end) && Tagged(mem[..], C, end) && TreeBut(mem[..], C, i, T, p)
      requires x == NodeAt(T, p) && x in C && C[x].kind == Large(p) && C[x].n >= 32 && xp == ParentAt(i, T, p)
      modifies this`treemap, mem
      ensures 0 <= LinkTo(i, T, p) < mem.Length
      ensures mem[..] == old(mem[..])[LinkTo(i, T, p) := r]
      ensures treemap == if r == 0 && p.Root? then BinMaps.Clear(old(treemap), i) else old(treemap)
    {
      hide Tiled, Tagged, TreeBut, BinMaps.Clear, Detached, NodeAt;
      ghost var u := mem[..];
      LargeBounds(u, C, end, x);
      SwapReads(u, C, end, i, T, p, x);
      LeafWrites(u, C, end, i, T, p);
      ButBin(u, C, i, T, p);
      var index: nat := Get(x + 7);
      var h := TreeBinAt(index);
      if x == Get(h) {
        Put(h, r);
        if r == 0 {
          treemap := BinMaps.Clear(treemap, index);
        }
      } else if Get(xp + 4) == x {
        Put(xp + 4, r);
      } else {
        Put(xp + 5, r);
      }
    }

    /** The last part of unlink_large_chunk: the parent link of x now names r, and r, unless
        null, takes over the parent and the children of x. */
    method Relink(x: int, xp: int, r: int, ghost i: nat, ghost T: Trie, ghost p: Path, ghost z: Path, ghost s: nat, ghost ring: seq<int>)
      requires Tiled(C, end) && Tagged(mem[..], C, end) && TreeBut(mem[..], C, i, T, p)
      requires x == NodeAt(T, p) && x in C && C[x].kind == Large(p) && C[x].n >= 32 && xp == ParentAt(i, T, p)
      requires r == 0 || (Spare(mem[..], C, i, T, p, z, s, ring) && ring[0] == r && x !in ring)
      modifies this`treemap, mem
      ensures r != 0 ==> Swapped(old(mem[..]), mem[..], i, T, p, r) && treemap == old(treemap)
      ensures r == 0 ==> Detached(old(mem[..]), mem[..], i, T, p)
      ensures r == 0 ==> treemap == if p.Root? then BinMaps.Clear(old(treemap), i) else old(treemap)
    {
      hide Tiled, Tagged, TreeBut, Spare, BinMaps.Clear, Swapped, Detached, NodeAt, LinkTo;
      ghost var u := mem[..];
      RelinkParent(x, xp, r, i, T, p);
      if r == 0 {
        LeafWrites(u, C, end, i, T, p);
      } else {
        LargeBounds(u, C, end, x);
        SwapReads(u, C, end, i, T, p, x);
        SwapBounds(u, C, end, i, T, p, z, s, ring);
        SwapOwnWords(u, C, end, i, T, p, z, s, ring, x);
        Put(r + 6, xp);
        var c0 := Get(x + 4);
        if c0 != 0 {
          Put(r + 4, c0);
          Put(c0 + 6, r);
        }
        var c1 := Get(x + 5);
        if c1 != 0 {
          Put(r + 5, c1);
          Put(c1 + 6, r);
        }
        SwapWrites(u, C, end, i, T, p, z, s, ring, mem[..]);
      }
    }

    /** The rightmost leaf below x is cut off its parent and returned; null when x is a leaf. */
    method DetachBelow(x: int, ghost i: nat, ghost T: Trie, ghost p: Path) returns (r: int, ghost l: Path)
      requires Tiled(C, end) && Tagged(mem[..], C, end) && TreeOK(mem[..], C, i, T) && p in T && x == NodeAt(T, p) && i < 32
      modifies mem
      ensures r == 0 ==> IsLeaf(T, p) && mem[..] == old(mem[..])
      ensures r != 0 ==> IsLeaf(T, l) && l != p && Under(l, p) && r == NodeAt(T, l) && Detached(old(mem[..]), mem[..], i, T, l)
    {
      hide Tiled, Tagged, TreeOK, Open, NodeAt, LinkTo, Detached;
      ghost var m := mem[..];
      l := p;
      RightmostStep(m, C, end, i, T, p);
      var link := x + 5;
      ghost var right, left := Down(p, true), Down(p, false);
      assert LinkTo(i, T, right) == x + 5 && LinkTo(i, T, left) == x + 4;
      r := Get(link);
      l := right;
      if r == 0 {
        link := x + 4;
        r := Get(link);
        l := left;
      }
      if r != 0 {
        assert Depth(l) == Depth(p) + 1;
        var done := false;
        while !done
          invariant mem[..] == m && l in T && r == NodeAt(T, l) && link == LinkTo(i, T, l)
          invariant l.Down? && Under(l, p) && Depth(l) > Depth(p)
          invariant done ==> IsLeaf(T, l)
          decreases !done, Open(i, l)
        {
          RightmostStep(m, C, end, i, T, l);
          right, left := Down(l, true), Down(l, false);
          assert LinkTo(i, T, right) == r + 5 && LinkTo(i, T, left) == r + 4;
          if Get(r + 5) != 0 {
            link := r + 5;
            r := Get(link);
            l := right;
          } else if Get(r + 4) != 0 {
            link := r + 4;
            r := Get(link);
            l := left;
          } else {
            done := true;
          }
        }
        DetachWrite(m, C, end, i, T, l);
        Put(link, 0);
      }
    }

    /** unlink_large_chunk for a chunk x that shares its size: its ring closes up behind it, and
        if x was the tree node, the chunk behind it takes its place. */
    method UnlinkShared(x: int, xp: int, ghost i: nat, ghost p: Path, ghost k: nat)
      requires Steady() && i < 32 && p in Ts[i] && k < |Ts[i][p]| && Ts[i][p][k] == x && x in C && C[x].kind == Large(p)
      requires |Ts[i][p]| >= 2 && xp == At(mem[..], x + 6)
      modifies this`treemap, this`C, this`Ts, mem
      ensures Steady() && Unbinned(old(C), C, x)
      ensures LiveKept(old(mem[..]), mem[..], old(C))
    {
      hide Heap, Marked, BinMaps.Clear, MapsOK, DvOK, TopOK, LiveKept, Tiled, Tagged, TreeOK, CutAt, Swapped, Spare, TreeBut, Unbinned;
      MapBit(S, Ts, smallmap, treemap, i);
      ghost var m, T := mem[..], Ts[i];
      LargePlace(m, C, end, S, Ts, x, i, p, k);
      RootIn(m, C, i, T, p);
      CutFromRing(m, C, end, i, T, p, k);
      var f, r := Get(x + 2), Get(x + 3);
      Put(f + 3, r);
      Put(r + 2, f);
      ghost var u := mem[..];
      if xp != 0 {
        CutHead(m, u, C, end, i, T, p);
        ghost var ring := R.Rotate(R.RemoveAt(T[p], 0));
        RingOf(m, C, i, T, p);
        RestApart(m, T[p]);
        Relink(x, xp, r, i, T, p, p, SizeAt(C, T, p), ring);
        UnlinkHead(m, u, mem[..], C, end, S, Ts, i, p);
        TreeMapStep(S, Ts, smallmap, treemap, i, T[p := ring], treemap);
        UnbinnedDvTop(C, Relabel(C, x, ring, p), x, dv, dvsize, top, topsize);
        C := Relabel(C, x, ring, p);
        Ts := Ts[i := T[p := ring]];
      } else {
        UnlinkChained(m, u, C, end, S, Ts, i, p, k);
        TreeMapStep(S, Ts, smallmap, treemap, i, T[p := R.RemoveAt(T[p], k)], treemap);
        UnbinnedDvTop(C, Rekind(C, x, Loose), x, dv, dvsize, top, topsize);
        C := Rekind(C, x, Loose);
        Ts := Ts[i := T[p := R.RemoveAt(T[p], k)]];
      }
    }

    /** unlink_large_chunk for the only chunk of its size: a leaf below takes its place, if any. */
    method UnlinkLone(x: int, xp: int, ghost i: nat, ghost p: Path)
      requires Steady() && i < 32 && p in Ts[i] && |Ts[i][p]| == 1 && Ts[i][p][0] == x && x in C && C[x].kind == Large(p)
      requires xp == At(mem[..], x + 6)
      modifies this`treemap, this`C, this`Ts, mem
      ensures Steady() && Unbinned(old(C), C, x)
      ensures LiveKept(old(mem[..]), mem[..], old(C))
    {
      hide Heap, Marked, BinMaps.Clear, MapsOK, DvOK, TopOK, LiveKept, Tiled, Tagged, TreeOK, Detached, Swapped, Spare, TreeBut, Unbinned, Under, IsLeaf;
      MapBit(S, Ts, smallmap, treemap, i);
      ghost var m, T := mem[..], Ts[i];
      LargePlace(m, C, end, S, Ts, x, i, p, 0);
      RootIn(m, C, i, T, p);
      var r; ghost var l;
      r, l := DetachBelow(x, i, T, p);
      ghost var u := mem[..];
      if xp != 0 {
        if r == 0 {
          ButFromTree(m, C, i, T, p);
          Relink(x, xp, r, i, T, p, p, 0, []);
          UnlinkLeaf(m, mem[..], C, end, S, Ts, i, p);
          LeafRoot(m, C, i, T, p);
          TreeMapStep(S, Ts, smallmap, old(treemap), i, T - {p}, treemap);
          UnbinnedDvTop(C, Rekind(C, x, Loose), x, dv, dvsize, top, topsize);
          C := Rekind(C, x, Loose);
          Ts := Ts[i := T - {p}];
        } else {
          DetachTagged(m, u, C, end, i, T, l);
          LeafSpare(m, u, C, end, i, T, l, p);
          LeafApart(m, C, i, T, p, l);
          Relink(x, xp, r, i, T - {l}, p, l, SizeAt(C, T, l), T[l]);
          UnlinkInner(m, u, mem[..], C, end, S, Ts, i, p, l);
          TreeMapStep(S, Ts, smallmap, treemap, i, (T - {l})[p := T[l]], treemap);
          UnbinnedDvTop(C, Relabel(C, x, T[l], p), x, dv, dvsize, top, topsize);
          C := Relabel(C, x, T[l], p);
          Ts := Ts[i := (T - {l})[p := T[l]]];
        }
      }
    }

    /** unlink_large_chunk */
    method UnlinkLargeChunk(x: int)
      requires Steady() && x in C && C[x].kind.Large?
      modifies this`treemap, this`C, this`Ts, mem
      ensures Steady() && Unbinned(old(C), C, x)
      ensures LiveKept(old(mem[..]), mem[..], old(C))
    {
      hide Heap, MapsOK, DvOK, TopOK, LiveKept, Unbinned, ParentAt;
      ghost var i, p, k := WhereLarge(mem[..], C, end, S, Ts, x);
      var xp := Get(x + 6);
      if Get(x + 3) != x {
        UnlinkShared(x, xp, i, p, k);
      } else {
        UnlinkLone(x, xp, i, p);
      }
    }

    /** The old dv goes to its small bin. */
    method RetireDv()
      requires Steady() && IsSmall(dvsize) && dvsize != 0
      modifies this`smallmap, this`dv, this`dvsize, this`C, this`S, mem
      ensures Steady() && dv == 0 && dvsize == 0 && C == Rekind(old(C), old(dv), Small)
      ensures LiveKept(old(mem[..]), mem[..], old(C))
    {
      hide Heap, MapsOK, LiveKept;
      var d, dvs := dv, dvsize;
      RekindHeap(mem[..], C, end, S, Ts, d, Loose);
      C := Rekind(C, d, Loose);
      dvsize, dv := 0, 0;
      InsertSmallChunk(d, dvs);
      LiveKeptRekind(old(mem[..]), mem[..], old(C), d, Loose);
    }

    /** replace_dv: the old dv goes to its small bin and the loose chunk p becomes dv. */
    method ReplaceDv(p: int, s: nat)
      requires Steady() && p in C && C[p].kind == Loose && 8 * C[p].n == s > 0 && IsSmall(dvsize)
      modifies this`smallmap, this`dv, this`dvsize, this`C, this`S, mem
      ensures Steady() && dv == p && dvsize == s
      ensures C == Rekind(if old(dvsize) == 0 then old(C) else Rekind(old(C), old(dv), Small), p, Dv)
      ensures LiveKept(old(mem[..]), mem[..], old(C))
    {
      hide Heap, MapsOK, LiveKept;
      var dvs := dvsize;
      LiveKeptSelf(mem[..], C);
      if dvs != 0 {
        RetireDv();
      }
      RekindHeap(mem[..], C, end, S, Ts, p, Dv);
      C := Rekind(C, p, Dv);
      dvsize := s;
      dv := p;
    }

    // ----- Putting a free chunk to use -----

    /** set_inuse_and_pinuse */
    method SetInuseAndPinuse(p: int, s: nat)
      requires Steady() && p in C && C[p].kind == Loose && 8 * C[p].n == s
      modifies this`C, mem
      ensures Steady() && C == Retake(old(C), p, InUse)
      ensures LiveKept(old(mem[..]), mem[..], old(C))
    {
      hide Heap, MapsOK, DvOK, TopOK, LiveKept;
      ghost var m := mem[..];
      ChunkBounds(m, C, end, S, Ts, p);
      var next := p + s / 8;
      Put(p + 1, s + 3);
      Put(next + 1, OrPInuse(Get(next + 1)));
      TakeHeap(m, mem[..], C, end, S, Ts, p);
      DvTopKept(C, Retake(C, p, InUse), dv, dvsize, top, topsize);
      C := Retake(C, p, InUse);
    }

    /** set_size_and_pinuse_of_inuse_chunk(p, nb); r = p + nb; set_size_and_pinuse_of_free_chunk(r, rsize) */
    method SplitChunk(p: int, nb: nat, rsize: nat) returns (r: int)
      requires Steady() && p in C && C[p].kind == Loose && 8 * C[p].n == nb + rsize
      requires nb % 8 == 0 && nb >= MIN_CHUNK_SIZE && rsize >= MIN_CHUNK_SIZE
      modifies this`C, mem
      ensures Steady() && C == Split(old(C), p, nb / 8, InUse, Loose) && r == p + nb / 8
      ensures LiveKept(old(mem[..]), mem[..], old(C))
    {
      hide Heap, MapsOK, DvOK, TopOK, LiveKept;
      ghost var m := mem[..];
      ChunkBounds(m, C, end, S, Ts, p);
      r := p + nb / 8;
      Put(p + 1, nb + 3);
      Put(r + 1, rsize + 1);
      Put(r + rsize / 8, rsize);
      SplitHeap(m, mem[..], C, end, S, Ts, p, nb / 8, Loose);
      SplitDvTop(m, C, end, S, Ts, p, nb / 8);
      DvTopKept(C, Split(C, p, nb / 8, InUse, Loose), dv, dvsize, top, topsize);
      C := Split(C, p, nb / 8, InUse, Loose);
    }

    /** p is cut to nb bytes, or taken whole; a remainder becomes dv. */
    method CarveToDv(p: int, nb: nat, rsize: nat)
      requires Steady() && OnlyLoose(C, p) && p in C && C[p].kind == Loose && 8 * C[p].n == nb + rsize
      requires nb % 8 == 0 && nb >= MIN_CHUNK_SIZE && IsSmall(dvsize)
      modifies this`smallmap, this`dv, this`dvsize, this`C, this`S, mem
      ensures Steady() && Settled(C) && Served(old(C), C, p, nb)
      ensures if rsize < MIN_CHUNK_SIZE then dv == old(dv) && dvsize == old(dvsize) else dv == p + nb / 8 && dvsize == rsize
      ensures PlanOf(C) == CarvedPlan(PlanOf(old(C)), p, nb, Victim)
      ensures LiveKept(old(mem[..]), mem[..], old(C))
    {
      hide Heap, MapsOK, DvOK, TopOK, LiveKept, Served, Retake, Split, Settled, IsSmall, PlanOf, CarvedPlan;
      ghost var c0, m0 := C, mem[..];
      BinsSteady(m0, C, end, S, Ts);
      if rsize < MIN_CHUNK_SIZE {
        SetInuseAndPinuse(p, rsize + nb);
        ServedWhole(m0, c0, end, S, Ts, p, nb);
        CarvedWhole(c0, p, nb, Victim);
      } else {
        CarvedToDv(c0, end, p, nb, dv, dvsize);
        var r := SplitChunk(p, nb, rsize);
        ghost var c1, m1 := C, mem[..];
        SplitDvTop(m0, c0, end, S, Ts, p, nb / 8);
        ServedPart(m0, c0, end, S, Ts, p, nb);
        ReplaceDv(r, rsize);
        ServedDv(c0, c1, p, nb, old(dv), old(dvsize), r);
        LiveCompose(m0, m1, mem[..], c0, c1, p, nb);
      }
    }

    /** insert_chunk */
    method InsertChunk(p: int, s: nat)
      requires Steady() && p in C && C[p].kind == Loose && 8 * C[p].n == s < SIZE_T_LIMIT
      modifies this`smallmap, this`treemap, this`C, this`S, this`Ts, mem
      ensures Steady() && p in C && Binned(C[p]) && C == Rekind(old(C), p, C[p].kind)
      ensures LiveKept(old(mem[..]), mem[..], old(C))
    {
      hide Heap, MapsOK, DvOK, TopOK, LiveKept;
      if IsSmall(s) {
        InsertSmallChunk(p, s);
      } else {
        InsertLargeChunk(p, s);
      }
    }

    /** unlink_chunk */
    method UnlinkChunk(p: int, s: nat)
      requires Steady() && p in C && Binned(C[p]) && 8 * C[p].n == s
      modifies this`smallmap, this`treemap, this`C, this`S, this`Ts, mem
      ensures Steady() && Unbinned(old(C), C, p)
      ensures LiveKept(old(mem[..]), mem[..], old(C))
    {
      hide Heap, MapsOK, DvOK, TopOK, LiveKept;
      BinnedSize(mem[..], C, end, S, Ts, p);
      if IsSmall(s) {
        UnlinkSmallChunk(p, s);
      } else {
        UnlinkLargeChunk(p);
      }
    }

    /** p is cut to nb bytes, or taken whole; a remainder goes to its bin. */
    method CarveToBin(p: int, nb: nat, rsize: nat)
      requires Steady() && OnlyLoose(C, p) && p in C && C[p].kind == Loose && 8 * C[p].n == nb + rsize < SIZE_T_LIMIT
      requires nb % 8 == 0 && nb >= MIN_CHUNK_SIZE
      modifies this`smallmap, this`treemap, this`C, this`S, this`Ts, mem
      ensures Steady() && Settled(C) && Served(old(C), C, p, nb)
      ensures PlanOf(C) == CarvedPlan(PlanOf(old(C)), p, nb, Listed)
      ensures LiveKept(old(mem[..]), mem[..], old(C))
    {
      hide Heap, MapsOK, DvOK, TopOK, LiveKept, Served, Retake, Split, Settled, IsSmall, PlanOf, CarvedPlan;
      ghost var c0, m0 := C, mem[..];
      if rsize < MIN_CHUNK_SIZE {
        SetInuseAndPinuse(p, rsize + nb);
        ServedWhole(m0, c0, end, S, Ts, p, nb);
        CarvedWhole(c0, p, nb, Listed);
      } else {
        var r := SplitChunk(p, nb, rsize);
        ghost var c1, m1 := C, mem[..];
        SplitDvTop(m0, c0, end, S, Ts, p, nb / 8);
        ServedPart(m0, c0, end, S, Ts, p, nb);
        InsertChunk(r, rsize);
        ServedBin(c0, c1, p, nb, r, C[r].kind);
        CarvedToBin(c0, p, nb, C[r].kind);
        LiveCompose(m0, m1, mem[..], c0, c1, p, nb);
      }
    }

    // ----- tmalloc_small -----

    /** leftmost_child(t) */
    method LeftmostOf(t: int, ghost i: nat, ghost p: Path) returns (c: int)
      requires Steady() && i < 32 && p in Ts[i] && t == NodeAt(Ts[i], p)
      ensures c == NodeAt(Ts[i], LeftmostChild(Ts[i], p)) && (c == 0 <==> LeftmostChild(Ts[i], p) !in Ts[i])
    {
      hide Heap, MapsOK, DvOK, TopOK, NodeAt;
      SteadyTree(mem[..], C, end, S, Ts, i);
      RightmostReads(mem[..], C, end, i, Ts[i], p);
      if Get(t + 4) != 0 {
        c := Get(t + 4);
      } else {
        c := Get(t + 5);
      }
    }

    /** The search of tmalloc_small: the smallest chunk of the first marked tree bin. */
    method SmallestTreeChunk(nb: nat) returns (v: int, rsize: nat)
      requires Steady() && treemap != 0 && nb < MIN_LARGE_SIZE
      ensures v in C && C[v].kind.Large? && 8 * C[v].n == nb + rsize < SIZE_T_LIMIT
      ensures BestTreeFit(C, nb, rsize)
    {
      hide Heap, MapsOK, DvOK, TopOK, LeastBit, Bit2Idx, Marked, InBin, WalkPast, Candidate, BestTreeFit;
      hide LeftmostChild, NodeAt, SizeAt, ChunkSize, AllBeaten, TreeOK, Tiled, Tagged, WalkCovers, Improve;
      ghost var low := LowestMarked(treemap);
      var i := Bit2Idx(LeastBit(treemap));
      TreeMapBits(S, Ts, smallmap, treemap);
      SteadyTree(mem[..], C, end, S, Ts, i);
      ghost var m, T := mem[..], Ts[i];
      StateBounds(m, C, end);
      TreeSlot(m, C, i, T);
      var t := Get(TreeBinAt(i));
      v := t;
      ghost var p, vp := Root, Root;
      SmallStart(m, C, end, i, T, nb);
      rsize := ChunkSize(Get(t + 1)) - nb;
      t := LeftmostOf(t, i, p);
      while t != 0
        invariant p in T && WalkPast(C, i, T, nb, rsize, p) && Candidate(C, T, nb, rsize, v, vp)
        invariant t == NodeAt(T, LeftmostChild(T, p)) && (t == 0 <==> LeftmostChild(T, p) !in T)
        decreases Open(i, p)
      {
        SmallStep(m, C, end, i, T, nb, rsize, p);
        p := LeftmostChild(T, p);
        var trem := ChunkSize(Get(t + 1)) - nb;
        if trem < rsize {
          rsize := trem;
          v := t;
          vp := p;
        }
        t := LeftmostOf(t, i, p);
      }
      WalkDone(C, i, T, nb, rsize, p);
      BinsSteady(m, C, end, S, Ts);
      SmallestIsBest(m, C, end, Ts, i, nb, rsize, v, vp);
    }

    /** tmalloc_small */
    method TmallocSmall(nb: nat) returns (p: int)
      requires Steady() && Settled(C) && treemap != 0 && IsSmall(dvsize)
      requires MIN_CHUNK_SIZE <= nb < MIN_LARGE_SIZE && nb % 8 == 0
      modifies this, mem
      ensures Steady() && Settled(C) && p in old(C) && Served(old(C), C, p, nb) && old(C)[p].kind.Large?
      ensures NoneBetter(old(C), nb, old(C)[p].n)
      ensures PlanOf(C) == CarvedPlan(PlanOf(old(C)), p, nb, Victim)
      ensures if 8 * old(C)[p].n - nb < MIN_CHUNK_SIZE then dv == old(dv) && dvsize == old(dvsize)
        else dv == p + nb / 8 && dvsize == 8 * old(C)[p].n - nb
      ensures LiveKept(old(mem[..]), mem[..], old(C))
    {
      hide Heap, MapsOK, DvOK, TopOK, LiveKept, Served, Unbinned, IsSmall, PlanOf, CarvedPlan;
      ghost var c0, m0 := C, mem[..];
      var v, rsize := SmallestTreeChunk(nb);
      UnlinkLargeChunk(v);
      ghost var c1, m1 := C, mem[..];
      UnbinnedLoose(c0, c1, v);
      PlanUnbinned(c0, c1, v);
      CarveToDv(v, nb, rsize);
      p := v;
      ServedAfterUnlink(c0, c1, C, v, nb);
      LiveAfterUnlink(m0, m1, mem[..], c0, c1, v);
      BestFits(c0, nb, rsize, c0[v].n);
    }

    // ----- tmalloc_large -----

    /** The first loop of tmalloc_large: down the bits of nb in the tree of its own bin. */
    method PathSearch(nb: nat, i: nat) returns (t: int, v: int, rsize: nat, ghost p: Path, ghost vp: Path)
      requires Steady() && i < 32 && InBin(i, nb) && MIN_LARGE_SIZE <= nb < SIZE_T_LIMIT
      ensures GoesOn(C, i, Ts[i], nb, rsize, t, p) && BestSoFar(C, Ts[i], nb, rsize, v, vp) && rsize <= SIZE_T_LIMIT - nb
    {
      hide Heap, MapsOK, DvOK, TopOK, InBin, GoesOn, BestSoFar, OnPath, TreeOK, Tiled, Tagged;
      hide NodeAt, SizeAt, ChunkSize, SignBit, Shl64, SizeBits, Improve, Sub64, TakesRight, WalkCovers, AllBeaten;
      TreeMapBits(S, Ts, smallmap, treemap);
      SteadyTree(mem[..], C, end, S, Ts, i);
      ghost var m, T := mem[..], Ts[i];
      StateBounds(m, C, end);
      TreeSlot(m, C, i, T);
      NodeNull(m, C, end, i, T, Root);
      v, rsize := 0, SIZE_T_LIMIT - nb;
      p, vp := Root, Root;
      t := Get(TreeBinAt(i));
      if t == 0 {
        NothingThere(m, C, i, T, nb);
        return;
      }
      OnPathStart(m, C, i, T, nb);
      var sizebits, rst := SizeBits(i, nb), 0;
      ghost var r := Root;
      while true
        invariant t == NodeAt(T, p) && OnPath(C, i, T, nb, rsize, p, sizebits, rst, r)
        invariant BestSoFar(C, T, nb, rsize, v, vp)
        decreases Open(i, p)
      {
        OnPathParts(m, C, end, i, T, nb, rsize, p, sizebits, rst, r);
        NodeReads(m, C, end, i, T, p);
        LookAt(m, C, end, i, T, nb, rsize, v, vp, p);
        ghost var rs := rsize;
        var trem := Sub64(ChunkSize(Get(t + 1)), nb);
        if trem < rsize {
          v, vp := t, p;
          rsize := trem;
          if rsize == 0 {
            ExactlyFits(m, C, i, T, nb, t, p);
            return;
          }
        }
        OnPathStep(m, C, end, i, T, nb, rs, p, sizebits, rst, r, rsize);
        var rt := Get(t + 5);
        t := Get(t + (if SignBit(sizebits) then 5 else 4));
        if rt != 0 && rt != t {
          rst := rt;
        }
        r := if TakesRight(T, p, SignBit(sizebits)) then Down(p, true) else r;
        p := Down(p, SignBit(sizebits));
        if t == 0 {
          t := rst;
          p := r;
          return;
        }
        sizebits := Shl64(sizebits);
      }
    }

    /** The last loop of tmalloc_large: the smallest chunk of the tree or subtree at t. */
    method WalkLeft(nb: nat, i: nat, t0: int, v0: int, rsize0: nat, ghost p0: Path, ghost vp0: Path)
      returns (v: int, rsize: nat, ghost vp: Path)
      requires Steady() && i < 32 && MIN_LARGE_SIZE <= nb < SIZE_T_LIMIT
      requires GoesOn(C, i, Ts[i], nb, rsize0, t0, p0) && BestSoFar(C, Ts[i], nb, rsize0, v0, vp0) && rsize0 <= SIZE_T_LIMIT - nb
      ensures AllBeaten(C, Ts[i], nb, rsize) && BestSoFar(C, Ts[i], nb, rsize, v, vp)
      ensures v0 != 0 ==> v != 0
    {
      hide Heap, MapsOK, DvOK, TopOK, InBin, GoesOn, BestSoFar, TreeOK, Tiled, Tagged;
      hide NodeAt, SizeAt, ChunkSize, Improve, Sub64, WalkCovers, AllBeaten, LeftmostChild;
      TreeMapBits(S, Ts, smallmap, treemap);
      SteadyTree(mem[..], C, end, S, Ts, i);
      ghost var m, T := mem[..], Ts[i];
      var t := t0;
      v, rsize, vp := v0, rsize0, vp0;
      ghost var p := p0;
      while t != 0
        invariant GoesOn(C, i, T, nb, rsize, t, p) && BestSoFar(C, T, nb, rsize, v, vp) && rsize <= SIZE_T_LIMIT - nb
        invariant v0 != 0 ==> v != 0
        decreases t != 0, Open(i, p)
      {
        GoesOnParts(C, i, T, nb, rsize, t, p);
        NodeReads(m, C, end, i, T, p);
        LookAt(m, C, end, i, T, nb, rsize, v, vp, p);
        GoesOnStep(m, C, i, T, nb, rsize, t, p);
        var trem := Sub64(ChunkSize(Get(t + 1)), nb);
        if trem < rsize {
          rsize := trem;
          v, vp := t, p;
        }
        t := LeftmostOf(t, i, p);
        p := LeftmostChild(T, p);
      }
      GoesOnEnd(C, i, T, nb, rsize, p);
    }

    /** The search of tmalloc_large over all tree bins. */
    method BestTreeChunk(nb: nat) returns (v: int, rsize: nat)
      requires Steady() && MIN_LARGE_SIZE <= nb < SIZE_T_LIMIT
      ensures BestTreeFit(C, nb, rsize)
      ensures if v == 0 then rsize == SIZE_T_LIMIT - nb
              else v in C && C[v].kind.Large? && 8 * C[v].n == nb + rsize < SIZE_T_LIMIT
    {
      hide Heap, MapsOK, DvOK, TopOK, InBin, GoesOn, TreeOK, Tiled, Tagged, TreeIndex, BestTreeFit, Candidate;
      hide NodeAt, SizeAt, WalkCovers, AllBeaten, LeftBits, LeastBit, Bit2Idx, BinMaps.And, Idx2Bit, Marked;
      TreeIndexBrackets(nb);
      var i := TreeIndex(nb);
      TreeMapBits(S, Ts, smallmap, treemap);
      BinsSteady(mem[..], C, end, S, Ts);
      SteadyTree(mem[..], C, end, S, Ts, i);
      StateBounds(mem[..], C, end);
      var t; ghost var p, vp;
      t, v, rsize, p, vp := PathSearch(nb, i);
      if t == 0 && v == 0 {
        GoesOnEnd(C, i, Ts[i], nb, rsize, p);
        var leftbits := BinMaps.And(LeftBits(Idx2Bit(i)), treemap);
        LeftBitsExact(treemap, i);
        if leftbits != 0 {
          ghost var low := LowestMarked(leftbits);
          var j := Bit2Idx(LeastBit(leftbits));
          SteadyTree(mem[..], C, end, S, Ts, j);
          TreeSlot(mem[..], C, j, Ts[j]);
          t := Get(TreeBinAt(j));
          NextBinStart(mem[..], C, end, Ts, i, j, nb);
          v, rsize, vp := WalkLeft(nb, j, t, v, rsize, Root, Root);
          SomethingFits(mem[..], C, j, Ts[j], nb, t, Root, rsize, v, vp);
          FoundInNextBin(mem[..], C, end, Ts, i, nb, j, rsize, v, vp);
        } else {
          ZeroMeansNoneMarked(leftbits);
          FoundNowhere(mem[..], C, end, Ts, i, nb);
        }
      } else {
        ghost var v0 := v;
        v, rsize, vp := WalkLeft(nb, i, t, v, rsize, p, vp);
        if v0 == 0 {
          SomethingFits(mem[..], C, i, Ts[i], nb, t, p, rsize, v, vp);
        }
        FoundInOwnBin(mem[..], C, end, Ts, i, nb, rsize, v, vp);
      }
    }

    /** tmalloc_large: null when no tree chunk fits better than dv. */
    method TmallocLarge(nb: nat) returns (p: int)
      requires Steady() && Settled(C) && MIN_LARGE_SIZE <= nb < SIZE_T_LIMIT && nb % 8 == 0
      modifies this, mem
      ensures Steady() && Settled(C) && LiveKept(old(mem[..]), mem[..], old(C)) && dv == old(dv) && dvsize == old(dvsize)
      ensures top == old(top) && topsize == old(topsize)
      ensures p == 0 ==> mem[..] == old(mem[..]) && C == old(C) && smallmap == old(smallmap) && treemap == old(treemap)
      ensures p == 0 ==> if nb <= dvsize then NoneBetter(C, nb, dvsize / 8) else NoTreeFit(C, nb)
      ensures p != 0 ==> p in old(C) && Served(old(C), C, p, nb) && old(C)[p].kind.Large? && nb <= 8 * old(C)[p].n
      ensures p != 0 ==> NoneBetter(old(C), nb, old(C)[p].n)
      ensures p != 0 && nb <= dvsize ==> 8 * old(C)[p].n < dvsize
      ensures p != 0 ==> PlanOf(C) == CarvedPlan(PlanOf(old(C)), p, nb, Listed)
    {
      hide Heap, MapsOK, DvOK, TopOK, LiveKept, Served, Unbinned, BestTreeFit, NoneBetter, NoTreeFit, PlanOf, CarvedPlan;
      ghost var c0, m0 := C, mem[..];
      LiveKeptSelf(m0, c0);
      var v, rsize := BestTreeChunk(nb);
      DvBound(m0, C, end, S, Ts, dv, dvsize);
      DvSubtract(dvsize, nb);
      if v != 0 && rsize < Sub64(dvsize, nb) {
        BestFits(c0, nb, rsize, c0[v].n);
        NotNull(m0, c0, end, S, Ts, v);
        UnlinkLargeChunk(v);
        ghost var c1, m1 := C, mem[..];
        UnbinnedLoose(c0, c1, v);
        PlanUnbinned(c0, c1, v);
        CarveToBin(v, nb, rsize);
        ServedAfterUnlink(c0, c1, C, v, nb);
        LiveAfterUnlink(m0, m1, mem[..], c0, c1, v);
        p := v;
      } else {
        p := 0;
        DvIsBetter(m0, C, end, S, Ts, nb, rsize, v, dvsize);
      }
    }

    // ----- mspace_malloc -----

    /** The part of mspace_malloc that looks for a small request in the bins: the exact bin or the
        next, or, when dv does not fit, the least larger small bin or else the smallest tree chunk;
        null to go on to dv and top. */
    method FromBins(nb: nat) returns (p: int)
      requires Steady() && Settled(C) && MIN_CHUNK_SIZE <= nb < MIN_LARGE_SIZE && nb % 8 == 0
      modifies this, mem
      ensures Steady() && Settled(C) && LiveKept(old(mem[..]), mem[..], old(C))
      ensures p == 0 ==> Unchanged(old(C), C, old(mem[..]), mem[..]) && dv == old(dv) && dvsize == old(dvsize)
      ensures p == 0 ==> top == old(top) && topsize == old(topsize)
      ensures p == 0 ==> NoNearFit(C, nb) && (nb <= dvsize || (NoTreeFit(C, nb) && NoSmallFit(C, nb)))
      ensures p != 0 ==> Served(old(C), C, p, nb) && Binned(old(C)[p]) && SmallChoice(old(C), p, nb)
      ensures p != 0 ==> PlanOf(C) == MallocPlan(PlanOf(old(C)), p, nb)
      ensures p != 0 ==> SmallAfter(old(C), old(S), p, nb, old(dv), old(dvsize), dv, dvsize)
    {
      hide Heap, MapsOK, DvOK, TopOK, LiveKept, Served, IsSmall, Settled, NoTreeFit, NoSmallFit, NoneBetter, OnlyLoose;
      hide SmallChoice, NoNearFit, NoDvFit, PlanOf, CarvedPlan, MallocPlan;
      hide BinMaps.And, BinMaps.Not, Shr, Shl, LeftBits, LeastBit, Bit2Idx, Idx2Bit, Marked;
      ghost var c0, m0 := C, mem[..];
      LiveKeptSelf(m0, c0);
      TreeMapBits(S, Ts, smallmap, treemap);
      var idx := SmallIndex(nb);
      var smallbits := Shr(smallmap, idx);
      SmallBits(smallmap, idx);
      SmallMarked(m0, C, end, S, Ts, smallmap, treemap);
      ghost var sm := smallmap;
      if BinMaps.And(smallbits, 3) != 0 {
        idx := idx + if BinMaps.And(BinMaps.Not(smallbits), 1) != 0 then 1 else 0;
        p := TakeFirst(idx, nb);
        SmallChosen(c0, sm, p, nb, idx);
        MallocFromBin(c0, p, nb);
      } else {
        p := 0;
        NearMarked(c0, sm, nb);
        if nb > dvsize {
          DvTooSmall(c0, dv, dvsize, nb);
          if smallbits != 0 {
            var leftbits := BinMaps.And(Shl(smallbits, idx), LeftBits(Idx2Bit(idx)));
            LeftSmallBits(smallmap, idx);
            ghost var low := LowestMarked(leftbits);
            var i := Bit2Idx(LeastBit(leftbits));
            p := CarveFirst(i, nb);
            SmallChosen(c0, sm, p, nb, i);
            MallocFromBin(c0, p, nb);
          } else if treemap != 0 {
            DvIsSmall(nb, dvsize);
            p := TmallocSmall(nb);
            PositiveChunk(m0, c0, end, old(S), old(Ts), p);
            LargeChosen(c0, C, sm, p, nb);
            MallocFromBin(c0, p, nb);
          } else {
            NothingBinned(m0, C, end, S, Ts, smallmap, treemap, nb);
          }
        }
      }
    }

    /** A remainderless fit: the first chunk of small bin i. */
    method TakeFirst(i: nat, nb: nat) returns (p: int)
      requires Steady() && Settled(C) && i < 32 && S[i] != [] && 0 < nb <= 8 * i < nb + MIN_CHUNK_SIZE
      modifies this`smallmap, this`C, this`S, mem
      ensures Steady() && Settled(C) && LiveKept(old(mem[..]), mem[..], old(C))
      ensures p != 0 && Served(old(C), C, p, nb) && p in old(C) && old(C)[p].kind == Small && old(C)[p].n == i
      ensures p == old(S)[i][0]
      ensures PlanOf(C) == CarvedPlan(PlanOf(old(C)), p, nb, Victim)
    {
      hide Heap, MapsOK, DvOK, TopOK, LiveKept, Served, Settled, OnlyLoose, Retake, PlanOf, CarvedPlan;
      ghost var c0, m0 := C, mem[..];
      StateLength(m0, C, end, S, Ts);
      var b := SmallBinAt(i);
      FirstSmall(m0, C, end, S, Ts, i);
      p := Get(b + 2);
      UnlinkFirstSmallChunk(b, p, i);
      ghost var c1, m1 := C, mem[..];
      PositiveChunk(m0, c0, end, old(S), old(Ts), p);
      RekindUnbinned(c0, p);
      UnbinnedLoose(c0, c1, p);
      PlanUnbinned(c0, c1, p);
      SetInuseAndPinuse(p, 8 * i);
      CarvedWhole(c1, p, nb, Victim);
      ServedWhole(m1, c1, end, S, Ts, p, nb);
      ServedAfterUnlink(c0, c1, C, p, nb);
      LiveAfterUnlink(m0, m1, mem[..], c0, c1, p);
    }

    /** The first chunk of the next larger small bin i, cut; the remainder becomes dv. */
    method CarveFirst(i: nat, nb: nat) returns (p: int)
      requires Steady() && Settled(C) && i < 32 && S[i] != [] && nb <= 8 * i && dvsize < nb
      requires MIN_CHUNK_SIZE <= nb < MIN_LARGE_SIZE && nb % 8 == 0
      modifies this`smallmap, this`dv, this`dvsize, this`C, this`S, mem
      ensures Steady() && Settled(C) && LiveKept(old(mem[..]), mem[..], old(C))
      ensures p != 0 && Served(old(C), C, p, nb) && p in old(C) && old(C)[p].kind == Small && old(C)[p].n == i
      ensures p == old(S)[i][0]
      ensures PlanOf(C) == CarvedPlan(PlanOf(old(C)), p, nb, Victim)
      ensures if 8 * i - nb < MIN_CHUNK_SIZE then dv == old(dv) && dvsize == old(dvsize) else dv == p + nb / 8 && dvsize == 8 * i - nb
    {
      hide Heap, MapsOK, DvOK, TopOK, LiveKept, Served, Settled, OnlyLoose, IsSmall, PlanOf, CarvedPlan;
      ghost var c0, m0 := C, mem[..];
      StateLength(m0, C, end, S, Ts);
      var b := SmallBinAt(i);
      FirstSmall(m0, C, end, S, Ts, i);
      p := Get(b + 2);
      UnlinkFirstSmallChunk(b, p, i);
      ghost var c1, m1 := C, mem[..];
      PositiveChunk(m0, c0, end, old(S), old(Ts), p);
      RekindUnbinned(c0, p);
      UnbinnedLoose(c0, c1, p);
      DvIsSmall(nb, dvsize);
      PlanUnbinned(c0, c1, p);
      CarveToDv(p, nb, 8 * i - nb);
      ServedAfterUnlink(c0, c1, C, p, nb);
      LiveAfterUnlink(m0, m1, mem[..], c0, c1, p);
    }

    /** The front of dv, or all of it. */
    method SplitDv(nb: nat) returns (p: int)
      requires Steady() && Settled(C) && MIN_CHUNK_SIZE <= nb <= dvsize && nb % 8 == 0
      modifies this`dv, this`dvsize, this`C, mem
      ensures Steady() && Settled(C) && LiveKept(old(mem[..]), mem[..], old(C))
      ensures p == old(dv) && p != 0 && Served(old(C), C, p, nb)
      ensures PlanOf(C) == MallocPlan(PlanOf(old(C)), p, nb)
    {
      hide Heap, MapsOK, DvOK, TopOK, LiveKept, Served, Settled, PlanOf, MallocPlan;
      p := dv;
      var rsize := dvsize - nb;
      if rsize >= MIN_CHUNK_SIZE {
        FrontOfDv(p, nb, rsize);
      } else {
        WholeDv(p, nb);
      }
    }

    method FrontOfDv(p: int, nb: nat, rsize: nat)
      requires Steady() && Settled(C) && p == dv && dvsize == nb + rsize && nb % 8 == 0
      requires MIN_CHUNK_SIZE <= nb && MIN_CHUNK_SIZE <= rsize
      modifies this`dv, this`dvsize, this`C, mem
      ensures Steady() && Settled(C) && LiveKept(old(mem[..]), mem[..], old(C))
      ensures p != 0 && Served(old(C), C, p, nb)
      ensures PlanOf(C) == MallocPlan(PlanOf(old(C)), p, nb)
    {
      hide Heap, MapsOK, TopOK, LiveKept, Served, Settled, Split, PlanOf, MallocPlan;
      MallocFromDv(C, dv, dvsize, nb);
      ghost var m := mem[..];
      ChunkBounds(m, C, end, S, Ts, p);
      PositiveChunk(m, C, end, S, Ts, p);
      DvBound(m, C, end, S, Ts, dv, dvsize);
      var r := p + nb / 8;
      dv := r;
      dvsize := rsize;
      Put(r + 1, rsize + 1);
      Put(r + rsize / 8, rsize);
      Put(p + 1, nb + 3);
      SplitHeap(m, mem[..], C, end, S, Ts, p, nb / 8, Dv);
      DvServed(m, C, end, S, Ts, p, nb, top, topsize);
      C := Split(C, p, nb / 8, InUse, Dv);
    }

    method WholeDv(p: int, nb: nat)
      requires Steady() && Settled(C) && p == dv && MIN_CHUNK_SIZE <= nb <= dvsize < nb + MIN_CHUNK_SIZE
      modifies this`dv, this`dvsize, this`C, mem
      ensures Steady() && Settled(C) && LiveKept(old(mem[..]), mem[..], old(C))
      ensures p != 0 && Served(old(C), C, p, nb)
      ensures PlanOf(C) == MallocPlan(PlanOf(old(C)), p, nb)
    {
      hide Heap, MapsOK, TopOK, LiveKept, Served, Settled, Retake, PlanOf, MallocPlan;
      MallocFromDv(C, dv, dvsize, nb);
      ghost var m := mem[..];
      ChunkBounds(m, C, end, S, Ts, p);
      PositiveChunk(m, C, end, S, Ts, p);
      DvBound(m, C, end, S, Ts, dv, dvsize);
      var dvs := dvsize;
      dvsize := 0;
      dv := 0;
      var next := p + dvs / 8;
      Put(p + 1, dvs + 3);
      Put(next + 1, OrPInuse(Get(next + 1)));
      TakeHeap(m, mem[..], C, end, S, Ts, p);
      DvTaken(m, C, end, S, Ts, p, nb, top, topsize);
      C := Retake(C, p, InUse);
    }

    /** The front of top. */
    method SplitTop(nb: nat) returns (p: int)
      requires Steady() && Settled(C) && MIN_CHUNK_SIZE <= nb < topsize && nb % 8 == 0
      modifies this`top, this`topsize, this`C, mem
      ensures Steady() && Settled(C) && LiveKept(old(mem[..]), mem[..], old(C))
      ensures p == old(top) && p != 0 && Served(old(C), C, p, nb)
      ensures PlanOf(C) == MallocPlan(PlanOf(old(C)), p, nb)
    {
      hide Heap, MapsOK, DvOK, LiveKept, Served, Settled, Split, PlanOf, MallocPlan;
      ghost var m := mem[..];
      MallocFromTop(C, top, nb);
      p := top;
      ChunkBounds(m, C, end, S, Ts, p);
      PositiveChunk(m, C, end, S, Ts, p);
      topsize := topsize - nb;
      var rsize := topsize;
      var r := p + nb / 8;
      top := r;
      Put(r + 1, rsize + 1);
      Put(p + 1, nb + 3);
      SplitTopHeap(m, mem[..], C, end, S, Ts, p, nb / 8);
      TopServed(m, C, end, S, Ts, p, nb, dv, dvsize);
      C := Split(C, p, nb / 8, InUse, Top);
    }

    /** The invariant between calls. */
    ghost predicate Valid()
      reads this, mem
    {
      Steady() && Settled(C) && mem.Length == end + TOP_FOOT_SIZE / 8
    }

    /** The last part of mspace_malloc, after the bins: dv, then top, then failure. */
    method FromDvOrTop(nb: nat) returns (p: int)
      requires Steady() && Settled(C) && MIN_CHUNK_SIZE <= nb && (nb % 8 == 0 || nb >= SIZE_T_LIMIT - 1)
      modifies this`dv, this`dvsize, this`top, this`topsize, this`C, mem
      ensures Steady() && Settled(C) && LiveKept(old(mem[..]), mem[..], old(C))
      ensures nb <= old(dvsize) ==> p == old(dv) && p != 0 && Served(old(C), C, p, nb)
      ensures old(dvsize) < nb < old(topsize) ==> p == old(top) && p != 0 && Served(old(C), C, p, nb)
      ensures old(dvsize) < nb && old(topsize) <= nb ==> p == 0 && Unchanged(old(C), C, old(mem[..]), mem[..])
      ensures nb <= old(dvsize) || nb < old(topsize) ==> nb % 8 == 0
      ensures p != 0 ==> PlanOf(C) == MallocPlan(PlanOf(old(C)), p, nb)
    {
      hide Heap, MapsOK, LiveKept, Served, Settled, PlanOf, MallocPlan;
      DvBound(mem[..], C, end, S, Ts, dv, dvsize);
      TopBound(mem[..], C, end, S, Ts, top, topsize);
      if nb <= dvsize {
        p := SplitDv(nb);
      } else if nb < topsize {
        p := SplitTop(nb);
      } else {
        p := 0;
        LiveKeptSelf(mem[..], C);
      }
    }

    /** mspace_malloc: the address of a new block's payload, or null.

        The new block is the front of a chunk that was free; it holds the request and wastes less
        than MIN_CHUNK_SIZE past the padded size. No other block comes or goes, and no live payload
        word changes. Null is returned exactly when nothing in the heap fits, and then nothing has
        changed. A large request gets the smallest chunk outside top that fits, and top only when
        there is none; a small one the chunk SmallChoice names. */
    method Malloc(bytes: nat) returns (p: int)
      requires Valid() && bytes < SIZE_T_LIMIT
      modifies this, mem
      ensures Valid() && LiveKept(old(mem[..]), mem[..], old(C))
      ensures p == 0 <==> !CanServe(old(C), bytes)
      ensures p == 0 ==> Unchanged(old(C), C, old(mem[..]), mem[..])
      ensures p != 0 ==> p - 2 > 0 && Served(old(C), C, p - 2, Request2Size(bytes))
      ensures p != 0 ==> p - 2 !in old(Allocated()) && p - 2 in Allocated() && Allocated() - {p - 2} == old(Allocated())
      ensures p != 0 ==> bytes <= 8 * |Allocated()[p - 2]|
      ensures p != 0 ==> Chosen(old(C), p - 2, bytes)
      ensures p != 0 ==> PlanOf(C) == MallocPlan(PlanOf(old(C)), p - 2, Request2Size(bytes))
      ensures p != 0 && bytes <= MAX_SMALL_REQUEST ==>
        SmallAfter(old(C), old(S), p - 2, Request2Size(bytes), old(dv), old(dvsize), dv, dvsize)
    {
      hide SmallChoice, NoNearFit, PlanOf, CarvedPlan, MallocPlan, SmallAfter;
      hide Live, Heap, MapsOK, DvOK, TopOK, LiveKept, Served, NoTreeFit, NoSmallFit, NoneBetter, Settled, CanServe, BestFit, Request2Size;
      ghost var c0, m0 := C, mem[..];
      var nb: nat, q: int;
      if bytes <= MAX_SMALL_REQUEST {
        RequestExact(bytes);
        nb := Request2Size(bytes);
        q := FromBins(nb);
        if q != 0 {
          PositiveServed(m0, c0, end, old(S), old(Ts), C, q, nb, bytes);
          LiveServed(m0, mem[..], c0, C, q, bytes);
          return q + 2;
        }
      } else if bytes >= MAX_REQUEST {
        nb := SIZE_T_LIMIT - 1;
      } else {
        RequestExact(bytes);
        nb := Request2Size(bytes);
        if treemap != 0 {
          q := TmallocLarge(nb);
          if q != 0 {
            PositiveServed(m0, c0, end, old(S), old(Ts), C, q, nb, bytes);
            LargeIsBest(m0, c0, end, old(S), old(Ts), old(dv), old(dvsize), nb, q, bytes);
            MallocFromBin(c0, q, nb);
            LiveServed(m0, mem[..], c0, C, q, bytes);
            return q + 2;
          }
        } else {
          NoTrees(m0, C, end, S, Ts, smallmap, treemap, nb, dvsize);
        }
      }
      DvBound(m0, C, end, S, Ts, dv, dvsize);
      TopBound(m0, C, end, S, Ts, top, topsize);
      ghost var dv0, dvsize0, top0, topsize0 := dv, dvsize, top, topsize;
      q := FromDvOrTop(nb);
      if bytes <= MAX_SMALL_REQUEST { TailChosen(c0, dv0, dvsize0, top0, topsize0, nb); }
      TailServes(m0, c0, end, old(S), old(Ts), dv0, dvsize0, top0, topsize0, nb, bytes);
      if q == 0 {
        p := 0;
      } else {
        NotFromBin(c0, old(S), q, nb, dv0, dvsize0, dv, dvsize);
        PositiveServed(m0, c0, end, old(S), old(Ts), C, q, nb, bytes);
        LiveServed(m0, mem[..], c0, C, q, bytes);
        p := q + 2;
      }
    }

    // ----- mspace_free -----

    /** set_free_with_pinuse(lo, s, lo + s), or set_size_and_pinuse_of_free_chunk(lo, s) when the
        chunk after the range already has its pinuse bit clear. */
    method FreeRange(lo: int, s: nat, clear: bool, ghost x: int, ghost k: Kind, ghost P: set<int>)
      requires Heap(mem[..], C, end, S, Ts) && k in {Loose, Dv} && s % 8 == 0
      requires CanMerge(C, end, lo, s / 8, k) && Mergeable(C, P, x, lo, s / 8)
      requires clear || !C[lo + s / 8].pin
      modifies this`C, mem
      ensures C == Merge(old(C), lo, s / 8, k) && Heap(mem[..], C, end, S, Ts)
      ensures LiveKeptBut(old(mem[..]), mem[..], old(C), x)
    {
      hide Heap, CanMerge, Mergeable, Merge, LiveKeptBut;
      ghost var m := mem[..];
      RangeBounds(m, C, end, S, Ts, lo, s, k);
      var next := lo + s / 8;
      if clear {
        Put(next + 1, AndNotPInuse(Get(next + 1)));
      }
      Put(lo + 1, s + 1);
      Put(lo + s / 8, s);
      MergeHeap(m, mem[..], C, end, S, Ts, x, lo, s / 8, k, P);
      C := Merge(C, lo, s / 8, k);
    }

    /** p->head = tsize | PINUSE: the freed range joins top. */
    method FreeIntoTop(lo: int, tsize: nat, ghost x: int, ghost P: set<int>)
      requires Heap(mem[..], C, end, S, Ts) && tsize % 8 == 0
      requires CanMerge(C, end, lo, tsize / 8, Top) && Mergeable(C, P, x, lo, tsize / 8)
      modifies this`C, mem
      ensures C == Merge(old(C), lo, tsize / 8, Top) && Heap(mem[..], C, end, S, Ts)
      ensures LiveKeptBut(old(mem[..]), mem[..], old(C), x)
    {
      hide Heap, Mergeable, Merge, LiveKeptBut;
      ghost var m := mem[..];
      ChunkBounds(m, C, end, S, Ts, lo);
      Put(lo + 1, tsize + 1);
      MergeTopHeap(m, mem[..], C, end, S, Ts, x, lo, tsize / 8, P);
      C := Merge(C, lo, tsize / 8, Top);
    }

    /** A loose chunk left by a free goes to its bin. */
    method Rebin(lo: int, psize: nat, ghost x: int, ghost c: Chunks, ghost m: Memory)
      requires Steady() && OnlyLoose(C, lo) && lo in C && C[lo].kind == Loose && 8 * C[lo].n == psize
      requires Freed(c, C, x) && LiveKeptBut(m, mem[..], c, x)
      modifies this`smallmap, this`treemap, this`C, this`S, this`Ts, mem
      ensures Steady() && Settled(C) && Freed(c, C, x) && LiveKeptBut(m, mem[..], c, x)
      ensures PlanOf(C) == PlanOf(old(C))
    {
      hide Heap, MapsOK, DvOK, TopOK, LiveKept, LiveKeptBut, Freed, OnlyLoose, Settled, PlanOf;
      ghost var u, c1 := mem[..], C;
      ChunkBelow(u, C, end, S, Ts, lo);
      InsertChunk(lo, psize);
      FreedRekind(c, c1, x, lo, C[lo].kind);
      PlanRekind(c1, lo, C[lo].kind);
      LiveButBefore(m, u, mem[..], c, c1, x);
    }

    /** The freed range reaches top and joins it. */
    method FreeTop(lo: int, psize: nat, next: int, ghost x: int)
      requires Steady() && OnlyLoose(C, lo) && BackShape(C, x, lo) && psize == 8 * (x - lo + C[x].n)
      requires next == x + C[x].n && next == top
      modifies this`dv, this`dvsize, this`top, this`topsize, this`C, mem
      ensures Steady() && Settled(C) && Freed(old(C), C, x) && LiveKeptBut(old(mem[..]), mem[..], old(C), x)
      ensures PlanOf(C) == FreeFrom(PlanOf(old(C)), x, lo)
    {
      hide Heap, Tiled, Tagged, MapsOK, LiveKept, LiveKeptBut, Freed, Merge, CanMerge, Mergeable, Settled, ShapeGone, PlanOf, FreeFrom;
      ghost var P := ShapeSet(C, x, lo, true);
      BinsSteady(mem[..], C, end, S, Ts);
      ShapeMerges(C, end, x, lo, true, Top);
      ShapeFreed(C, end, x, lo, true, (topsize + psize) / 8, Top);
      PlanMerge(C, end, x, lo, true, (topsize + psize) / 8, Top);
      ShapeRegisters(C, end, x, lo, true, (topsize + psize) / 8, Top, dv, dvsize, top, topsize);
      var tsize := topsize + psize;
      topsize := tsize;
      top := lo;
      FreeIntoTop(lo, tsize, x, P);
      if lo == dv {
        dv := 0;
        dvsize := 0;
      }
    }

    /** The freed range reaches dv and becomes dv with it. */
    method FreeDv(lo: int, psize: nat, next: int, ghost x: int)
      requires Steady() && OnlyLoose(C, lo) && BackShape(C, x, lo) && psize == 8 * (x - lo + C[x].n)
      requires next == x + C[x].n && next == dv && C[next].kind != InUse
      modifies this`dv, this`dvsize, this`C, mem
      ensures Steady() && Settled(C) && Freed(old(C), C, x) && LiveKeptBut(old(mem[..]), mem[..], old(C), x)
      ensures PlanOf(C) == FreeFrom(PlanOf(old(C)), x, lo)
    {
      hide Heap, Tiled, Tagged, MapsOK, LiveKept, LiveKeptBut, Freed, Merge, CanMerge, Mergeable, Settled, ShapeGone, PlanOf, FreeFrom;
      ghost var P := ShapeSet(C, x, lo, true);
      BinsSteady(mem[..], C, end, S, Ts);
      DvFree(mem[..], C, end, S, Ts, dv, dvsize);
      ShapeMerges(C, end, x, lo, true, Dv);
      ShapeFreed(C, end, x, lo, true, (dvsize + psize) / 8, Dv);
      PlanMerge(C, end, x, lo, true, (dvsize + psize) / 8, Dv);
      ShapeRegisters(C, end, x, lo, true, (dvsize + psize) / 8, Dv, dv, dvsize, top, topsize);
      var dsize := dvsize + psize;
      dvsize := dsize;
      dv := lo;
      FreeRange(lo, dsize, false, x, Dv, P);
    }

    /** The chunk after the freed range is unlinked and joins it. */
    method FreeBinned(lo: int, psize0: nat, next: int, ghost x: int)
      requires Steady() && OnlyLoose(C, lo) && BackShape(C, x, lo) && psize0 == 8 * (x - lo + C[x].n)
      requires next == x + C[x].n && Binned(C[next])
      modifies this, mem
      ensures Steady() && Settled(C) && Freed(old(C), C, x) && LiveKeptBut(old(mem[..]), mem[..], old(C), x)
      ensures PlanOf(C) == FreeFrom(PlanOf(old(C)), x, lo)
    {
      hide Heap, Tiled, Tagged, MapsOK, LiveKept, LiveKeptBut, Freed, Merge, CanMerge, Mergeable, Settled, ShapeGone, PlanOf, FreeFrom, Unbinned, IsSmall;
      ghost var c0, m0 := C, mem[..];
      FreeReads(m0, C, end, S, Ts, x);
      var nsize := ChunkSize(Get(next + 1));
      var psize := psize0 + nsize;
      UnlinkChunk(next, nsize);
      ghost var c1, m1 := C, mem[..];
      NextUnlinked(c0, c1, x, lo, next);
      ghost var k, P := ShapeKind(C, x, lo, true), ShapeSet(C, x, lo, true);
      BinsSteady(mem[..], C, end, S, Ts);
      ShapeMerges(C, end, x, lo, true, k);
      ShapeFreed(C, end, x, lo, true, psize / 8, k);
      PlanMerge(C, end, x, lo, true, psize / 8, k);
      PlanUnbinned(c0, c1, next);
      ShapeRegisters(C, end, x, lo, true, psize / 8, k, dv, dvsize, top, topsize);
      DvIs(C, lo, dv, dvsize);
      FreeRange(lo, psize, false, x, k, P);
      FreedAfterUnlink(c0, c1, C, next, x);
      LiveButAfterUnlink(m0, m1, mem[..], c0, c1, next, x);
      if lo == dv {
        dvsize := psize;
      } else {
        Rebin(lo, psize, x, c0, m0);
      }
    }

    /** The chunk after the freed range is in use. */
    method FreeAlone(lo: int, psize: nat, next: int, ghost x: int)
      requires Steady() && OnlyLoose(C, lo) && BackShape(C, x, lo) && psize == 8 * (x - lo + C[x].n)
      requires next == x + C[x].n && C[next].kind == InUse && C[lo].kind != Dv
      modifies this`smallmap, this`treemap, this`C, this`S, this`Ts, mem
      ensures Steady() && Settled(C) && Freed(old(C), C, x) && LiveKeptBut(old(mem[..]), mem[..], old(C), x)
      ensures PlanOf(C) == FreeFrom(PlanOf(old(C)), x, lo)
    {
      hide Heap, MapsOK, LiveKept, LiveKeptBut, Freed, Merge, CanMerge, Mergeable, Settled, ShapeGone, PlanOf, FreeFrom, IsSmall;
      ghost var P := ShapeSet(C, x, lo, false);
      BinsSteady(mem[..], C, end, S, Ts);
      ShapeMerges(C, end, x, lo, false, Loose);
      ShapeFreed(C, end, x, lo, false, psize / 8, Loose);
      PlanMerge(C, end, x, lo, false, psize / 8, Loose);
      ShapeRegisters(C, end, x, lo, false, psize / 8, Loose, dv, dvsize, top, topsize);
      FreeRange(lo, psize, true, x, Loose, P);
      Rebin(lo, psize, x, old(C), old(mem[..]));
    }

    /** dv takes in the freed chunk behind it, when the chunk after that is in use. */
    method FreeBehindDv(lo: int, psize: nat, next: int, ghost x: int)
      requires Steady() && Settled(C) && BackShape(C, x, lo) && psize == 8 * (x - lo + C[x].n)
      requires next == x + C[x].n && C[next].kind == InUse && C[lo].kind == Dv && lo == dv
      modifies this`dvsize, this`C, mem
      ensures Steady() && Settled(C) && Freed(old(C), C, x) && LiveKeptBut(old(mem[..]), mem[..], old(C), x)
      ensures PlanOf(C) == FreeFrom(PlanOf(old(C)), x, lo)
    {
      hide Heap, MapsOK, LiveKept, LiveKeptBut, Freed, Merge, CanMerge, Mergeable, ShapeGone, PlanOf, FreeFrom;
      ghost var P := ShapeSet(C, x, lo, false);
      BinsSteady(mem[..], C, end, S, Ts);
      ShapeMerges(C, end, x, lo, false, Dv);
      ShapeFreed(C, end, x, lo, false, psize / 8, Dv);
      PlanMerge(C, end, x, lo, false, psize / 8, Dv);
      ShapeRegisters(C, end, x, lo, false, psize / 8, Dv, dv, dvsize, top, topsize);
      dvsize := psize;
      FreeRange(lo, psize, true, x, Dv, P);
    }

    /** The part of mspace_free that follows ok_next: the freed chunk x, with the free chunk lo
        before it if lo != x, joins top, dv or a free chunk after it, or becomes free alone. */
    method FreeForward(lo: int, psize: nat, next: int, ghost x: int)
      requires Steady() && OnlyLoose(C, lo) && BackShape(C, x, lo)
      requires psize == 8 * (x - lo + C[x].n) && next == x + C[x].n
      requires C[lo].kind == Dv ==> C[next].kind != InUse
      modifies this, mem
      ensures Steady() && Settled(C) && Freed(old(C), C, x) && LiveKeptBut(old(mem[..]), mem[..], old(C), x)
      ensures PlanOf(C) == FreeFrom(PlanOf(old(C)), x, lo)
    {
      hide Heap, MapsOK, LiveKept, LiveKeptBut, Freed, Merge, CanMerge, Mergeable, PlanOf, FreeFrom;
      ghost var m0 := mem[..];
      FreeReads(m0, C, end, S, Ts, x);
      NextKind(m0, C, end, S, Ts, x, lo, dv, dvsize, top, topsize);
      if !CInuse(Get(next + 1)) {
        if next == top {
          FreeTop(lo, psize, next, x);
        } else if next == dv {
          FreeDv(lo, psize, next, x);
        } else {
          FreeBinned(lo, psize, next, x);
        }
      } else {
        FreeAlone(lo, psize, next, x);
      }
    }

    /** The consolidation of mspace_free, for the chunk p. */
    method FreeBlock(p: int)
      requires Valid() && p > 0 && p in C && C[p].kind == InUse
      modifies this, mem
      ensures Valid() && Freed(old(C), C, p) && LiveKeptBut(old(mem[..]), mem[..], old(C), p)
      ensures PlanOf(C) == FreePlan(PlanOf(old(C)), p)
    {
      hide Live, Heap, MapsOK, LiveKept, LiveKeptBut, Freed, Merge, CanMerge, Mergeable, Settled, ShapeGone, IsSmall, Unbinned;
      hide PlanOf, FreeFrom, Start, Tiled, Tagged, FreedDv, FreedTop;
      ghost var c0, m0 := C, mem[..];
      BinsSteady(m0, C, end, S, Ts);
      FreeReads(m0, C, end, S, Ts, p);
      SettledShape(C, p);
      var psize := ChunkSize(Get(p + 1));
      var next := p + psize / 8;
      if PInuse(Get(p + 1)) {
        StartIs(c0, end, p, p);
        FreeForward(p, psize, next, p);
      } else {
        ghost var r := PrevReads(m0, C, end, S, Ts, p, dv, dvsize);
        var prevsize := Get(p);
        psize := psize + prevsize;
        var prev := p - prevsize / 8;
        assert !PInuse(prevsize);
        StartIs(c0, end, p, prev);
        if prev != dv {
          UnlinkChunk(prev, prevsize);
          ghost var c1, m1 := C, mem[..];
          BackUnlinked(c0, c1, p, prev, dv, dvsize);
          PlanUnbinned(c0, c1, prev);
          FreeForward(prev, psize, next, p);
          FreedAfterUnlink(c0, c1, C, prev, p);
          LiveButAfterUnlink(m0, m1, mem[..], c0, c1, prev, p);
        } else if CInuse(Get(next + 1)) && PInuse(Get(next + 1)) {
          FreeBehindDv(prev, psize, next, p);
        } else {
          FreeForward(prev, psize, next, p);
        }
      }
    }

    /** mspace_free: the block at mem goes out of use, and only that one.

        It merges with the free chunks on either side, so that no two free chunks touch; the
        payload of every other block is unchanged. Freeing null does nothing. */
    method Free(mem0: int)
      requires Valid() && (mem0 == 0 || (mem0 > 2 && mem0 - 2 in C && C[mem0 - 2].kind == InUse))
      modifies this, mem
      ensures Valid()
      ensures mem0 == 0 ==> Unchanged(old(C), C, old(mem[..]), mem[..])
      ensures mem0 != 0 ==> Freed(old(C), C, mem0 - 2) && LiveKeptBut(old(mem[..]), mem[..], old(C), mem0 - 2)
      ensures mem0 != 0 ==> Allocated() == old(Allocated()) - {mem0 - 2}
      ensures mem0 != 0 ==> PlanOf(C) == FreePlan(PlanOf(old(C)), mem0 - 2)
      ensures mem0 != 0 ==> var v, p := PlanOf(old(C)), mem0 - 2;
        && (dv, dvsize) == FreedDv(v, p, Start(v, p), old(dv), old(dvsize), old(top))
        && (top, topsize) == FreedTop(v, p, Start(v, p), old(top), old(topsize))
    {
      if mem0 != 0 {
        hide Live, Heap, MapsOK, LiveKeptBut, Freed, PlanOf, FreePlan, Start, Tiled, Tagged, FreedDv, FreedTop, DvOK, TopOK;
        ghost var c0, m0 := C, mem[..];
        BinsSteady(m0, C, end, S, Ts);
        FreeBlock(mem0 - 2);
        LiveFreed(m0, mem[..], c0, C, mem0 - 2);
        BinsSteady(mem[..], C, end, S, Ts);
        FreeRegisters(c0, C, end, mem0 - 2, old(dv), old(dvsize), old(top), old(topsize), dv, dvsize, top, topsize);
      }
    }

    // ----- mspace_realloc -----

    /** set_inuse(p, nb); set_inuse(remainder, rsize) */
    method CutBlock(p: int, nb: nat, rsize: nat) returns (remainder: int)
      requires Valid() && p in C && p > 0 && C[p].kind == InUse && 8 * C[p].n == nb + rsize
      requires nb % 8 == 0 && nb >= MIN_CHUNK_SIZE && rsize >= MIN_CHUNK_SIZE
      modifies this`C, mem
      ensures Valid() && remainder == p + nb / 8 && C == Split(old(C), p, nb / 8, InUse, InUse)
      ensures CutOff(old(Allocated()), Allocated(), p, nb / 8)
    {
      hide Heap, MapsOK, DvOK, TopOK, Live, Split, CutOff, Tiled, Tagged, CutWrites, SetInuse, OrPInuse;
      ghost var m := mem[..];
      BinsSteady(m, C, end, S, Ts);
      CutWrote(m, C, end, p, nb / 8);
      remainder := p + nb / 8;
      Put(p + 1, SetInuse(Get(p + 1), nb));
      Put(remainder + 1, OrPInuse(Get(remainder + 1)));
      Put(remainder + 1, SetInuse(Get(remainder + 1), rsize));
      Put(remainder + rsize / 8 + 1, OrPInuse(Get(remainder + rsize / 8 + 1)));
      CutHeap(m, mem[..], C, end, S, Ts, p, nb / 8);
      CutLive(m, mem[..], C, end, S, Ts, p, nb / 8);
      CutRegisters(C, end, p, nb / 8, dv, dvsize, top, topsize);
      C := Split(C, p, nb / 8, InUse, InUse);
    }

    /** The block p before top takes nb bytes of the two; the rest is top. */
    method GrowIntoTop(p: int, oldsize: nat, nb: nat)
      requires Valid() && p in C && p > 0 && C[p].kind == InUse && 8 * C[p].n == oldsize < nb < oldsize + topsize
      requires p + C[p].n == top && nb % 8 == 0
      modifies this`top, this`topsize, this`C, mem
      ensures Valid() && Resized(old(Allocated()), Allocated(), p, p, nb)
      ensures PlanOf(C) == GrowPlan(PlanOf(old(C)), p, nb / 8)
    {
      hide Heap, MapsOK, DvOK, Live, Stretch, Resized, Tiled, Tagged, StretchWrites, SetInuse, OrPInuse, PlanOf, GrowPlan;
      ghost var m := mem[..];
      ChunkBounds(m, C, end, S, Ts, p);
      ChunkBounds(m, C, end, S, Ts, top);
      BinsSteady(m, C, end, S, Ts);
      StretchWrote(m, C, end, p, nb / 8, (oldsize + topsize - nb) / 8);
      var newsize := oldsize + topsize;
      var newtopsize := newsize - nb;
      var newtop := p + nb / 8;
      Put(p + 1, SetInuse(Get(p + 1), nb));
      Put(newtop + 1, OrPInuse(Get(newtop + 1)));
      Put(newtop + 1, newtopsize + 1);
      top := newtop;
      topsize := newtopsize;
      StretchHeap(m, mem[..], C, end, S, Ts, p, nb / 8, newtopsize / 8);
      StretchLive(m, mem[..], C, end, S, Ts, p, nb / 8, newtopsize / 8);
      StretchRegisters(C, end, p, nb / 8, newtopsize / 8, dv, dvsize);
      PlanStretch(C, p, nb / 8, newtopsize / 8);
      C := Stretch(C, p, nb / 8, newtopsize / 8);
    }

    /** memcpy(newmem, oldmem, bytes) between the payloads of two blocks, in whole words. */
    method CopyPayload(newp: int, oldp: int, bytes: nat)
      requires Valid() && newp in C && oldp in C && newp != oldp && 0 < newp && 0 < oldp
      requires C[newp].kind == InUse && C[oldp].kind == InUse && bytes % 8 == 0
      requires bytes / 8 == C[oldp].n - 1 <= C[newp].n - 1
      modifies mem
      ensures Valid() && Allocated() - {newp} == old(Allocated()) - {newp}
      ensures oldp in old(Allocated()) && newp in Allocated() && PrefixKept(old(Allocated())[oldp], Allocated()[newp])
      ensures newp in old(Allocated()) && |Allocated()[newp]| == |old(Allocated())[newp]|
    {
      hide Heap, MapsOK, DvOK, TopOK;
      ghost var m := mem[..];
      FreeReads(m, C, end, S, Ts, oldp);
      FreeReads(m, C, end, S, Ts, newp);
      ChunkBounds(m, C, end, S, Ts, oldp);
      ChunkBounds(m, C, end, S, Ts, newp);
      PayloadsClear(m, C, end, S, Ts, newp, oldp);
      for k := 0 to bytes / 8
        invariant mem.Length == |m| && PayloadWrites(m, mem[..], C, newp)
        invariant Copied(m, mem[..], newp + 2, oldp + 2, k)
      {
        CopiedStep(m, mem[..], C, newp, oldp, k);
        Put(newp + 2 + k, Get(oldp + 2 + k));
      }
      CopiedPrefix(m, mem[..], C, newp, oldp);
      PayloadHeap(m, mem[..], C, end, S, Ts, newp);
      LiveBut(m, mem[..], C, newp);
    }

    /** The block is big enough: a remainder of MIN_CHUNK_SIZE or more is cut off and freed. */
    method Shrink(p: int, oldsize: nat, nb: nat)
      requires Valid() && p in C && p > 0 && C[p].kind == InUse && 8 * C[p].n == oldsize >= nb
      requires nb % 8 == 0 && nb >= MIN_CHUNK_SIZE
      modifies this, mem
      ensures Valid() && Resized(old(Allocated()), Allocated(), p, p, nb)
      ensures PlanOf(C) == ShrinkPlan(PlanOf(old(C)), p, nb)
    {
      hide Heap, MapsOK, DvOK, TopOK, Resized, CutOff, PlanOf, FreePlan, ShrinkPlan, FreedDv, FreedTop, Start, Freed, LiveKeptBut, Settled;
      ShrinkIs(C, p, nb);
      var rsize := oldsize - nb;
      if rsize >= MIN_CHUNK_SIZE {
        var remainder := CutBlock(p, nb, rsize);
        ghost var b := Allocated();
        CutMember(mem[..], C, old(Allocated()), p, nb / 8);
        Free(remainder + 2);
        CutThenFreed(old(Allocated()), b, Allocated(), p, nb / 8);
      } else {
        StaysPut(Allocated(), p, nb);
      }
    }

    /** internal_realloc.

        The block keeps its first words, and every other block is unchanged. It stays where it is
        when it is large enough, less a remainder that makes a chunk, and when it lies before a top
        that has room for it to grow to the padded size. Only otherwise does it move, to where
        malloc puts it. On failure nothing has changed. */
    method InternalRealloc(oldmem: int, bytes: nat) returns (r: int)
      requires Valid() && bytes < SIZE_T_LIMIT && oldmem - 2 in Allocated()
      modifies this, mem
      ensures Valid() && (r == 0 <==> !CanRealloc(old(C), oldmem - 2, bytes))
      ensures r == 0 ==> Unchanged(old(C), C, old(mem[..]), mem[..])
      ensures r != 0 ==> Resized(old(Allocated()), Allocated(), oldmem - 2, r - 2, Request2Size(bytes))
      ensures oldmem - 2 in old(C)
      ensures bytes < MAX_REQUEST ==>
        (Request2Size(bytes) <= 8 * old(C)[oldmem - 2].n
          || (old(top) == oldmem - 2 + old(C)[oldmem - 2].n && Request2Size(bytes) < 8 * old(C)[oldmem - 2].n + old(topsize))
        <==> r == oldmem)
      ensures r == oldmem ==>
        PlanOf(C) == (if Request2Size(bytes) <= 8 * old(C)[oldmem - 2].n then ShrinkPlan(PlanOf(old(C)), oldmem - 2, Request2Size(bytes))
                      else GrowPlan(PlanOf(old(C)), oldmem - 2, Request2Size(bytes) / 8))
      ensures r != 0 && r != oldmem ==> Chosen(old(C), r - 2, bytes)
      ensures r != 0 && r != oldmem ==>
        PlanOf(C) == FreePlan(MallocPlan(PlanOf(old(C)), r - 2, Request2Size(bytes)), oldmem - 2)
    {
      hide Heap, MapsOK, DvOK, TopOK, Resized, CutOff, Request2Size, CanServe, Chosen, PlanOf, ShrinkPlan, GrowPlan, MallocPlan, FreePlan;
      LiveMember(mem[..], C, end, S, Ts, oldmem - 2);
      if bytes >= MAX_REQUEST { return 0; }
      RequestExact(bytes);
      ghost var m0 := mem[..];
      var oldp := oldmem - 2;
      FreeReads(m0, C, end, S, Ts, oldp);
      TopIs(m0, C, end, S, Ts, top, topsize);
      var oldsize := ChunkSize(Get(oldp + 1));
      var next := oldp + oldsize / 8;
      var nb := Request2Size(bytes);
      if oldsize >= nb {
        Shrink(oldp, oldsize, nb);
        r := oldmem;
      } else if next == top && oldsize + topsize > nb {
        GrowIntoTop(oldp, oldsize, nb);
        r := oldmem;
      } else {
        r := MoveBlock(oldp, oldsize, bytes);
      }
    }

    /** The last part of internal_realloc: a new block, a copy, and the old block freed. */
    method MoveBlock(oldp: int, oldsize: nat, bytes: nat) returns (newmem: int)
      requires Valid() && bytes < MAX_REQUEST && oldp in Allocated() && 8 * C[oldp].n == oldsize < Request2Size(bytes)
      modifies this, mem
      ensures Valid() && (newmem == 0 <==> !CanServe(old(C), bytes))
      ensures newmem == 0 ==> Unchanged(old(C), C, old(mem[..]), mem[..])
      ensures newmem != 0 ==> Resized(old(Allocated()), Allocated(), oldp, newmem - 2, Request2Size(bytes))
      ensures newmem != 0 ==> newmem - 2 != oldp && Chosen(old(C), newmem - 2, bytes)
      ensures newmem != 0 ==> PlanOf(C) == FreePlan(MallocPlan(PlanOf(old(C)), newmem - 2, Request2Size(bytes)), oldp)
    {
      hide Heap, MapsOK, DvOK, TopOK, Resized, CanServe, Chosen, LiveKept, LiveKeptBut, Freed, Settled, PlanOf, MallocPlan, FreePlan;
      hide SmallAfter, FreedDv, FreedTop, Start;
      FreeReads(mem[..], C, end, S, Ts, oldp);
      newmem := Malloc(bytes);
      if newmem != 0 {
        ghost var b1 := Allocated();
        var oc := oldsize - 8;
        CopyPayload(newmem - 2, oldp, if oc < bytes then oc else bytes);
        ghost var b2 := Allocated();
        Free(oldp + 2);
        Moved(old(Allocated()), b1, b2, Allocated(), oldp, newmem - 2, Request2Size(bytes));
      }
    }

    /** mspace_realloc */
    method Realloc(oldmem: int, bytes: nat) returns (r: int)
      requires Valid() && bytes < SIZE_T_LIMIT && (oldmem == 0 || oldmem - 2 in Allocated())
      modifies this, mem
      ensures Valid()
      ensures r == 0 <==> if oldmem == 0 then !CanServe(old(C), bytes) else !CanRealloc(old(C), oldmem - 2, bytes)
      ensures r == 0 ==> Unchanged(old(C), C, old(mem[..]), mem[..])
      ensures r != 0 && oldmem != 0 ==> Resized(old(Allocated()), Allocated(), oldmem - 2, r - 2, Request2Size(bytes))
      ensures r != 0 && oldmem == 0 ==> r - 2 in Allocated() && Allocated() - {r - 2} == old(Allocated())
      ensures r != 0 && oldmem == 0 ==> r - 2 !in old(Allocated()) && bytes <= 8 * |Allocated()[r - 2]|
      ensures oldmem != 0 ==> oldmem - 2 in old(C)
      ensures oldmem != 0 && bytes < MAX_REQUEST ==>
        (Request2Size(bytes) <= 8 * old(C)[oldmem - 2].n
          || (old(top) == oldmem - 2 + old(C)[oldmem - 2].n && Request2Size(bytes) < 8 * old(C)[oldmem - 2].n + old(topsize))
        <==> r == oldmem)
      ensures oldmem != 0 && r == oldmem ==>
        PlanOf(C) == (if Request2Size(bytes) <= 8 * old(C)[oldmem - 2].n then ShrinkPlan(PlanOf(old(C)), oldmem - 2, Request2Size(bytes))
                      else GrowPlan(PlanOf(old(C)), oldmem - 2, Request2Size(bytes) / 8))
      ensures r != 0 && r != oldmem ==> Chosen(old(C), r - 2, bytes)
      ensures r != 0 && r != oldmem ==>
        PlanOf(C) == (if oldmem == 0 then MallocPlan(PlanOf(old(C)), r - 2, Request2Size(bytes))
                      else FreePlan(MallocPlan(PlanOf(old(C)), r - 2, Request2Size(bytes)), oldmem - 2))
    {
      hide Heap, MapsOK, DvOK, TopOK, Live, Resized, Chosen, CanServe, PlanOf, ShrinkPlan, GrowPlan, MallocPlan, FreePlan, Request2Size;
      if oldmem == 0 {
        r := Malloc(bytes);
      } else {
        r := InternalRealloc(oldmem, bytes);
      }
    }

    // ----- mspace_memalign -----

    /** set_inuse(newp, newsize); set_inuse(p, leadsize): the front of p becomes the leader. */
    method CutLeader(p: int, leadsize: nat, newsize: nat) returns (newp: int)
      requires Valid() && p in C && p > 0 && C[p].kind == InUse && 8 * C[p].n == leadsize + newsize
      requires leadsize % 8 == 0 && leadsize >= MIN_CHUNK_SIZE && newsize >= MIN_CHUNK_SIZE
      modifies this`C, mem
      ensures Valid() && newp == p + leadsize / 8 && C == Split(old(C), p, leadsize / 8, InUse, InUse)
      ensures CutOff(old(Allocated()), Allocated(), p, leadsize / 8)
    {
      hide Heap, MapsOK, DvOK, TopOK, Live, Split, CutOff, Tiled, Tagged, CutWrites, SetInuse, OrPInuse;
      ghost var m := mem[..];
      BinsSteady(m, C, end, S, Ts);
      LeaderWrote(m, C, end, p, leadsize / 8);
      newp := p + leadsize / 8;
      Put(newp + 1, SetInuse(Get(newp + 1), newsize));
      Put(newp + newsize / 8 + 1, OrPInuse(Get(newp + newsize / 8 + 1)));
      Put(p + 1, SetInuse(Get(p + 1), leadsize));
      Put(newp + 1, OrPInuse(Get(newp + 1)));
      CutHeap(m, mem[..], C, end, S, Ts, p, leadsize / 8);
      CutLive(m, mem[..], C, end, S, Ts, p, leadsize / 8);
      CutRegisters(C, end, p, leadsize / 8, dv, dvsize, top, topsize);
      C := Split(C, p, leadsize / 8, InUse, InUse);
    }

    /** internal_memalign, for a segment whose first word is at address base.

        The payload handed out is at a multiple of the alignment rounded up to a power of two; it
        holds the request, and at most MIN_CHUNK_SIZE bytes more than the padded size. No other
        block comes, goes or changes: the leader and the trailer cut off are free again. */
    method Memalign(base: nat, alignment: nat, bytes: nat) returns (r: int)
      requires Valid() && bytes < SIZE_T_LIMIT && alignment <= SIZE_T_LIMIT / 2
      requires base % 8 == 0 && base + 8 * mem.Length <= SIZE_T_LIMIT
      modifies this, mem
      ensures Valid() && (r == 0 <==> !CanAlign(old(C), alignment, bytes))
      ensures r == 0 ==> Unchanged(old(C), C, old(mem[..]), mem[..])
      ensures r != 0 ==> r - 2 in Allocated() && r - 2 !in old(Allocated()) && Allocated() - {r - 2} == old(Allocated())
      ensures r != 0 ==> bytes <= 8 * |Allocated()[r - 2]| && Aligned(base + 8 * r, if alignment <= 8 then 8 else AlignTo(alignment))
      ensures r != 0 && alignment > 8 ==>
        Request2Size(bytes) <= 8 * (|Allocated()[r - 2]| + 1) <= Request2Size(bytes) + MIN_CHUNK_SIZE
      ensures r != 0 && alignment <= 8 ==>
        Chosen(old(C), r - 2, bytes) && PlanOf(C) == MallocPlan(PlanOf(old(C)), r - 2, Request2Size(bytes))
      ensures r != 0 && alignment > 8 ==> exists p :: AlignedFrom(old(C), C, base, alignment, bytes, p, r)
    {
      hide Heap, MapsOK, DvOK, TopOK, Live, Served, CanServe, Request2Size, AlignTo, Aligned;
      hide Chosen, PlanOf, MallocPlan, AlignPlan, FirstSpot;
      if alignment <= 8 {
        r := Malloc(bytes);
        if r != 0 { WordAligned(base, r); }
        return;
      }
      var a := RoundAlignment(alignment);
      AlignBounds(alignment, a);
      if bytes >= MAX_REQUEST - a { return 0; }
      RequestExact(bytes);
      var nb := Request2Size(bytes);
      var req := nb + a + MIN_CHUNK_SIZE - 8;
      AskFor(nb, a, bytes);
      r := Malloc(req);
      if r != 0 {
        ServedRoom(mem[..], C, end, S, Ts, r - 2, nb, a);
        ghost var p := r - 2;
        r := PlaceAligned(base, r, a, nb);
        assert AlignedFrom(old(C), C, base, alignment, bytes, p, r);
        AlignedRequest(nb, bytes, |Allocated()[r - 2]|);
      }
    }

    /** From C to D, a block for an aligned request has been made, with its payload at r: in a block that malloc put
        at p for the enlarged request, at the first aligned spot. */
    static ghost predicate AlignedFrom(C: Chunks, D: Chunks, base: nat, alignment: nat, bytes: nat, p: int, r: int) {
      var req := Request2Size(bytes) + AlignTo(alignment) + MIN_CHUNK_SIZE - 8;
      && Chosen(C, p, req) && FirstSpot(base, p, AlignTo(alignment), r - 2)
      && PlanOf(D) == AlignPlan(MallocPlan(PlanOf(C), p, Request2Size(req)), p, r - 2, Request2Size(bytes))
    }

    /** The misaligned block p is cut at the aligned spot inside it. */
    method SkipLeader(base: nat, p: int, a: nat, nb: nat) returns (newp: int)
      requires Valid() && p in C && p > 0 && C[p].kind == InUse && nb + a + MIN_CHUNK_SIZE <= 8 * C[p].n
      requires base % 8 == 0 && base + 8 * mem.Length <= SIZE_T_LIMIT && nb % 8 == 0 && nb >= MIN_CHUNK_SIZE
      requires PowerOfTwo(a) && MIN_CHUNK_SIZE <= a <= SIZE_T_LIMIT / 2 && !Aligned(base + 8 * (p + 2), a)
      modifies this`C, mem
      ensures Valid() && p < newp && CutOff(old(Allocated()), Allocated(), p, newp - p)
      ensures newp in C && newp in Allocated() && C[newp].kind == InUse && nb <= 8 * C[newp].n && Aligned(base + 8 * (newp + 2), a)
      ensures p in Allocated()
      ensures PlanOf(C) == CutAtPlan(PlanOf(old(C)), p, newp - p, Used, Used) && FirstSpot(base, p, a, newp)
    {
      hide Heap, MapsOK, DvOK, TopOK, Live, Split, CutOff, Aligned, PlanOf, CutAtPlan, FirstSpot, AlignedSpot;
      FreeReads(mem[..], C, end, S, Ts, p);
      ChunkBounds(mem[..], C, end, S, Ts, p);
      LeaderRoom(base, p, a, nb, C[p].n, mem.Length);
      LeaderFirst(base, p, a, C[p].n, mem.Length);
      LiveIs(mem[..], C, end, S, Ts, p);
      var pos := AlignedSpot(base + 8 * p, base + 8 * (p + 2), a);
      var leadsize := pos - (base + 8 * p);
      var newsize := ChunkSize(Get(p + 1)) - leadsize;
      PlanSplit(C, p, leadsize / 8, InUse, InUse);
      newp := CutLeader(p, leadsize, newsize);
      CutParts(old(Allocated()), Allocated(), p, leadsize / 8);
      LiveMember(mem[..], C, end, S, Ts, newp);
    }

    /** The rest of internal_memalign, on the block just handed out by malloc. */
    method PlaceAligned(base: nat, mem0: int, a: nat, nb: nat) returns (r: int)
      requires Valid() && mem0 - 2 in Allocated() && mem0 - 2 in C && nb + a + MIN_CHUNK_SIZE <= 8 * C[mem0 - 2].n
      requires base % 8 == 0 && base + 8 * mem.Length <= SIZE_T_LIMIT && nb % 8 == 0 && nb >= MIN_CHUNK_SIZE
      requires PowerOfTwo(a) && MIN_CHUNK_SIZE <= a <= SIZE_T_LIMIT / 2
      modifies this, mem
      ensures Valid() && r > 2 && r - 2 in Allocated() && Allocated() - {r - 2} == old(Allocated()) - {mem0 - 2}
      ensures r == mem0 || r - 2 !in old(Allocated())
      ensures nb <= 8 * (|Allocated()[r - 2]| + 1) <= nb + MIN_CHUNK_SIZE && Aligned(base + 8 * r, a)
      ensures FirstSpot(base, mem0 - 2, a, r - 2) && PlanOf(C) == AlignPlan(PlanOf(old(C)), mem0 - 2, r - 2, nb)
    {
      hide Heap, MapsOK, DvOK, TopOK, Live, Split, CutOff, Aligned, PlanOf, CutAtPlan, FreePlan, FirstSpot;
      hide FreedDv, FreedTop, Start, Freed, LiveKeptBut, Settled;
      var p := mem0 - 2;
      LiveMember(mem[..], C, end, S, Ts, p);
      FreeReads(mem[..], C, end, S, Ts, p);
      ChunkBounds(mem[..], C, end, S, Ts, p);
      if !Aligned(base + 8 * mem0, a) {
        ghost var b1 := Allocated();
        var newp := SkipLeader(base, p, a, nb);
        ghost var b2 := Allocated();
        PlanAt(C, newp);
        var t := TrimTail(newp, nb);
        ghost var b3 := Allocated();
        TailKeeps(b2, b3, newp, nb, t, p);
        r := newp + 2;
        LiveMember(mem[..], C, end, S, Ts, p);
        Free(p + 2);
        if t != 0 {
          LiveMember(mem[..], C, end, S, Ts, t);
          Free(t + 2);
        }
        AlignedBoth(b1, b2, b3, Allocated(), p, newp - p, nb, t);
      } else {
        SpotHere(base, p, a);
        ghost var b1 := Allocated();
        PlanAt(C, p);
        var t := TrimTail(p, nb);
        r := p + 2;
        ghost var b3 := Allocated();
        if t != 0 {
          TailParts(b1, b3, p, nb, t);
          LiveMember(mem[..], C, end, S, Ts, t);
          Free(t + 2);
        }
        AlignedTail(b1, b3, Allocated(), p, nb, t);
      }
    }

    /** Spare room at the end is cut off; null if there is none to speak of. */
    method TrimTail(p: int, nb: nat) returns (t: int)
      requires Valid() && p in C && p > 0 && C[p].kind == InUse && nb <= 8 * C[p].n && nb % 8 == 0 && nb >= MIN_CHUNK_SIZE
      modifies this`C, mem
      ensures Valid() && TailCut(old(Allocated()), Allocated(), p, nb, t)
      ensures p in old(C) && t == (if 8 * old(C)[p].n > nb + MIN_CHUNK_SIZE then p + nb / 8 else 0)
      ensures PlanOf(C) == (if t != 0 then CutAtPlan(PlanOf(old(C)), p, nb / 8, Used, Used) else PlanOf(old(C)))
    {
      hide Heap, MapsOK, DvOK, TopOK, Live, Split, CutOff, Tiled, Tagged, PlanOf, CutAtPlan;
      FreeReads(mem[..], C, end, S, Ts, p);
      LiveIs(mem[..], C, end, S, Ts, p);
      var size := ChunkSize(Get(p + 1));
      if size > nb + MIN_CHUNK_SIZE {
        PlanSplit(C, p, nb / 8, InUse, InUse);
        t := CutBlock(p, nb, size - nb);
        TailCutOff(old(Allocated()), Allocated(), p, nb, t, size);
      } else {
        t := 0;
      }
    }
  }
}
