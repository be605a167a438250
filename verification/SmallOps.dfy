/** Linking a free chunk into its small bin, and unlinking one. */
module SmallOps {
  import opened Layout
  import opened Tags
  import opened Rings
  import opened Bins

  /** The whole heap but for the bin maps, dv and top registers. Loose chunks are allowed. */
  ghost predicate Heap(m: Memory, C: Chunks, end: int, S: seq<seq<int>>, Ts: seq<Trie>) {
    Tiled(C, end) && Tagged(m, C, end) && SmallBinsOK(m, C, S) && TreeBinsOK(m, C, Ts)
  }

  /** Every block the user holds keeps its payload. */
  ghost predicate LiveKept(m: Memory, w: Memory, C: Chunks) {
    && |w| == |m|
    && forall q {:trigger BodyKept(m, w, C, q)} | q in C && q != 0 && C[q].kind == InUse :: BodyKept(m, w, C, q)
  }

  function SmallRing(i: nat, L: seq<int>): seq<int> { [SmallBinAt(i)] + L }

  lemma LinksLive(m: Memory, w: Memory, C: Chunks, end: int, N: set<int>)
    requires LinksOnly(m, w, C, end, N)
    ensures LiveKept(m, w, C)
  {}

  // ----- insert_small_chunk -----

  lemma SmallNodesClear(C: Chunks, end: int, i: nat, a: int)
    requires Tiled(C, end) && i < 32 && a in C && a != 0
    ensures Clear(SmallBinAt(i), a) && a >= STATE_WORDS && a + C[a].n <= end
    ensures !C[a].kind.Top? ==> a + 4 <= end
  {
    assert ChunkOK(C, end, a);
  }

  lemma ChunksClear(C: Chunks, end: int, a: int, b: int)
    requires Tiled(C, end) && a in C && b in C && a != b && !C[a].kind.Top? && !C[b].kind.Top?
    ensures Clear(a, b)
  {
    assert ChunkOK(C, end, a) && ChunkOK(C, end, b) && Apart(C, a, b);
  }

  /** What the own bin looks like after x is linked behind the header. */
  lemma InsertSmallRing(m: Memory, C: Chunks, end: int, S: seq<seq<int>>, x: int)
    requires Tiled(C, end) && Tagged(m, C, end) && SmallBinsOK(m, C, S)
    requires x in C && C[x].kind == Loose && C[x].n < 32
    ensures var i := C[x].n; var h, f := SmallBinAt(i), Next(SmallRing(i, S[i]), 0);
      && Fits(|m|, h) && Fits(|m|, x) && Fits(|m|, f) && Clear(h, x) && Clear(f, x) && (h == f || Clear(h, f))
      && Ring(Join(m, h, x, f), SmallRing(i, [x] + S[i]))
      && (f == h || (f in C && SmallMember(C, i, f)))
  {
    var i := C[x].n;
    assert ChunkOK(C, end, x);
    SmallNodesClear(C, end, i, x);
    assert SmallBinOK(m, C, S[i], i);
    var r := SmallRing(i, S[i]);
    assert S[i] == [] ==> r == [SmallBinAt(i)];
    forall k | 0 <= k < |r| ensures Clear(r[k], x) {
      if k > 0 {
        assert SmallMember(C, i, r[k]);
        ChunksClear(C, end, r[k], x);
      }
    }
    InsertRing(m, r, x);
    assert InsertAfter(r, x) == SmallRing(i, [x] + S[i]);
    assert S[i] != [] ==> SmallMember(C, i, S[i][0]);
  }

  /** Node a is a small-bin header or a free chunk; Owner names the chunk whose words it uses. */
  function Owner(a: int): int { if a < STATE_WORDS then 0 else a }

  predicate ListNode(C: Chunks, a: int) {
    (11 <= a <= 73) || (a >= STATE_WORDS && a in C && Free(C[a]) && C[a].kind != Top)
  }

  lemma JoinLinks(m: Memory, C: Chunks, end: int, a: int, x: int, f: int)
    requires Tiled(C, end) && ListNode(C, a) && ListNode(C, x) && ListNode(C, f)
    requires Fits(|m|, a) && Fits(|m|, x) && Fits(|m|, f)
    ensures LinksOnly(m, Join(m, a, x, f), C, end, {Owner(a), Owner(x), Owner(f)})
  {
    var m1 := m[a + 2 := x];
    var m2 := m1[f + 3 := x];
    var m3 := m2[x + 2 := f];
    var m4 := m3[x + 3 := a];
    OneLinkWrite(m, m1, C, end, Owner(a), a + 2);
    OneLinkWrite(m1, m2, C, end, Owner(f), f + 3);
    OneLinkWrite(m2, m3, C, end, Owner(x), x + 2);
    OneLinkWrite(m3, m4, C, end, Owner(x), x + 3);
    hide LinksOnly;
    LinksCompose(m, m1, m2, C, end, {Owner(a)}, {Owner(f)});
    LinksCompose(m, m2, m3, C, end, {Owner(a)} + {Owner(f)}, {Owner(x)});
    LinksCompose(m, m3, m4, C, end, {Owner(a)} + {Owner(f)} + {Owner(x)}, {Owner(x)});
    assert {Owner(a)} + {Owner(f)} + {Owner(x)} + {Owner(x)} == {Owner(a), Owner(x), Owner(f)};
  }

  lemma CutLinks(m: Memory, C: Chunks, end: int, f: int, b: int)
    requires Tiled(C, end) && ListNode(C, f) && ListNode(C, b)
    requires Fits(|m|, f) && Fits(|m|, b)
    ensures LinksOnly(m, Cut(m, f, b), C, end, {Owner(f), Owner(b)})
  {
    var m1 := m[f + 3 := b];
    var m2 := m1[b + 2 := f];
    OneLinkWrite(m, m1, C, end, Owner(f), f + 3);
    OneLinkWrite(m1, m2, C, end, Owner(b), b + 2);
    hide LinksOnly;
    LinksCompose(m, m1, m2, C, end, {Owner(f)}, {Owner(b)});
    assert {Owner(f)} + {Owner(b)} == {Owner(f), Owner(b)};
  }

  // ----- Bins apart from the one an operation changes -----

  /** Small bin j, none of whose members or headers was written, after chunk x changed kind. */
  lemma OtherSmallBin(m: Memory, w: Memory, C: Chunks, D: Chunks, end: int, N: set<int>, L: seq<int>, j: nat)
    requires Tiled(C, end) && SmallBinOK(m, C, L, j) && LinksOnly(m, w, C, end, N) && j < 32
    requires Fd(w, SmallBinAt(j)) == Fd(m, SmallBinAt(j)) && Bk(w, SmallBinAt(j)) == Bk(m, SmallBinAt(j))
    requires forall a | SmallMember(C, j, a) && a in L :: a !in N && a in D && Alike(C[a], D[a])
    ensures SmallBinOK(w, D, L, j)
  {
    hide Tiled, MemberKept;
    forall k | 0 <= k < |L| ensures MemberKept(m, w, C, D, L[k]) {
      assert SmallMember(C, j, L[k]);
      MemberIsKept(m, w, C, D, end, N, L[k]);
    }
    SmallBinKept(m, w, C, D, L, j);
  }

  /** All tree bins, when no large chunk and no tree slot was written. */
  lemma TreesKeptByLinks(m: Memory, w: Memory, C: Chunks, D: Chunks, end: int, N: set<int>, Ts: seq<Trie>)
    requires Tiled(C, end) && TreeBinsOK(m, C, Ts) && LinksOnly(m, w, C, end, N)
    requires forall i: nat | i < 32 :: At(w, TreeBinAt(i)) == At(m, TreeBinAt(i))
    requires forall a | a in C && C[a].kind.Large? :: a !in N && a in D && Alike(C[a], D[a])
    requires forall a | a in D && D[a].kind.Large? :: a in C && Alike(C[a], D[a])
    ensures TreeBinsOK(w, D, Ts)
  {
    hide Tiled, MemberKept;
    forall i | 0 <= i < 32 ensures TreeOK(w, D, i, Ts[i]) {
      var T := Ts[i];
      assert TreeOK(m, C, i, T);
      forall p, k | p in T && 0 <= k < |T[p]| ensures MemberKept(m, w, C, D, T[p][k]) {
        assert NodeOK(m, C, i, T, p) && LargeMember(C, p, SizeAt(C, T, p), T[p][k]);
        MemberIsKept(m, w, C, D, end, N, T[p][k]);
      }
      TreeKept(m, w, C, D, i, T);
    }
    forall a | a in D && D[a].kind.Large? ensures InTreeBin(D, Ts, a) {
      assert InTreeBin(C, Ts, a);
    }
  }

  lemma InsertSmallRest(m: Memory, w: Memory, C: Chunks, end: int, S: seq<seq<int>>, Ts: seq<Trie>, x: int, f: int, N: set<int>)
    requires Heap(m, C, end, S, Ts) && x in C && C[x].kind == Loose && C[x].n < 32
    requires LinksOnly(m, w, C, end, N) && N == {0, x, Owner(f)}
    requires f == SmallBinAt(C[x].n) || SmallMember(C, C[x].n, f)
    requires Ring(w, SmallRing(C[x].n, [x] + S[C[x].n]))
    requires var h := SmallBinAt(C[x].n); forall y | y != h + 2 && y != f + 3 && y != x + 2 && y != x + 3 :: At(w, y) == At(m, y)
    ensures Heap(w, Rekind(C, x, Small), end, S[C[x].n := [x] + S[C[x].n]], Ts)
    ensures LiveKept(m, w, C)
  {
    var i := C[x].n;
    var D, S' := Rekind(C, x, Small), S[i := [x] + S[i]];
    hide Tagged, LinksOnly, Ring, TreeBinsOK;
    assert |w| == |m| by { LinksLive(m, w, C, end, N); }
    SmallNodesClear(C, end, i, x);
    if f != SmallBinAt(i) { SmallNodesClear(C, end, i, f); }
    forall j | 0 <= j < 32 ensures SmallBinOK(w, D, S'[j], j) {
      assert SmallBinOK(m, C, S[j], j);
      if j == i {
        forall k | 0 <= k < |S'[i]| ensures SmallMember(D, i, S'[i][k]) {
          if k > 0 { assert S'[i][k] == S[i][k - 1] && SmallMember(C, i, S[i][k - 1]); }
        }
      } else {
        OtherSmallBin(m, w, C, D, end, N, S[j], j);
      }
    }
    forall a | a in D && D[a].kind == Small ensures InSmallBin(D, S', a) {
      if a != x { assert InSmallBin(C, S, a); }
    }
    TreesKeptByLinks(m, w, C, D, end, N, Ts);
    RekindTiled(C, end, x, Small);
    LinksTagged(m, w, C, end, N);
    RekindTags(w, C, end, x, Small);
    LinksLive(m, w, C, end, N);
  }

  /** insert_small_chunk: the loose chunk x becomes the first chunk of its bin. */
  lemma InsertSmall(m: Memory, C: Chunks, end: int, S: seq<seq<int>>, Ts: seq<Trie>, x: int)
    requires Heap(m, C, end, S, Ts) && x in C && C[x].kind == Loose && C[x].n < 32
    ensures var i := C[x].n; var h, f := SmallBinAt(i), Next(SmallRing(i, S[i]), 0);
      && Fits(|m|, h) && Fits(|m|, x) && Fits(|m|, f)
      && var w := Join(m, h, x, f);
      && Heap(w, Rekind(C, x, Small), end, S[i := [x] + S[i]], Ts)
      && LiveKept(m, w, C)
  {
    var i := C[x].n;
    var h, f := SmallBinAt(i), Next(SmallRing(i, S[i]), 0);
    InsertSmallRing(m, C, end, S, x);
    var w, D, S' := Join(m, h, x, f), Rekind(C, x, Small), S[i := [x] + S[i]];
    SmallNodesClear(C, end, i, x);
    if f != h { SmallNodesClear(C, end, i, f); }
    JoinLinks(m, C, end, h, x, f);
    JoinWords(m, h, x, f);
    InsertSmallRest(m, w, C, end, S, Ts, x, f, {Owner(h), Owner(x), Owner(f)});
  }

  // ----- unlink_small_chunk and unlink_first_small_chunk -----

  /** Chunk p in place k of bin i: its link words name its neighbours, which are the same node
      exactly when p is alone; cutting it out leaves the ring of the others. */
  lemma UnlinkSmallRing(m: Memory, C: Chunks, end: int, S: seq<seq<int>>, i: nat, k: nat)
    requires Tiled(C, end) && SmallBinsOK(m, C, S) && i < 32 && k < |S[i]|
    ensures var p, r := S[i][k], SmallRing(i, S[i]); var f, b := Next(r, k + 1), Prev(r, k + 1);
      && SmallMember(C, i, p) && Fd(m, p) == f && Bk(m, p) == b
      && (f == b <==> |S[i]| == 1)
      && (f == SmallBinAt(i) || (SmallMember(C, i, f) && f in S[i] && f != p))
      && (b == SmallBinAt(i) || (SmallMember(C, i, b) && b in S[i] && b != p))
      && Fits(|m|, f) && Fits(|m|, b)
      && (f != b ==> Clear(f, b) && Ring(Cut(m, f, b), SmallRing(i, RemoveAt(S[i], k))))
    ensures forall j | 0 <= j < |S[i]| && j != k :: S[i][j] != S[i][k]
  {
    assert SmallBinOK(m, C, S[i], i);
    var r := SmallRing(i, S[i]);
    assert r[k + 1] == S[i][k] && LinkAt(m, r, k + 1);
    assert SmallMember(C, i, S[i][k]);
    assert k > 0 ==> SmallMember(C, i, S[i][k - 1]);
    assert k + 1 < |S[i]| ==> SmallMember(C, i, S[i][k + 1]);
    RemoveRing(m, r, k + 1);
    assert RemoveAt(r, k + 1) == SmallRing(i, RemoveAt(S[i], k));
    forall j | 0 <= j < |S[i]| && j != k ensures S[i][j] != S[i][k] {
      assert r[j + 1] == S[i][j];
    }
  }

  lemma UnlinkSmallRest(m: Memory, w: Memory, C: Chunks, end: int, S: seq<seq<int>>, Ts: seq<Trie>, i: nat, k: nat, f: int, b: int)
    requires Heap(m, C, end, S, Ts) && i < 32 && k < |S[i]| && SmallMember(C, i, S[i][k])
    requires LinksOnly(m, w, C, end, {Owner(f), Owner(b)})
    requires f == SmallBinAt(i) || (SmallMember(C, i, f) && f != S[i][k])
    requires b == SmallBinAt(i) || (SmallMember(C, i, b) && b != S[i][k])
    requires |S[i]| > 1 ==> Ring(w, SmallRing(i, RemoveAt(S[i], k)))
    requires forall y | y != f + 3 && y != b + 2 :: At(w, y) == At(m, y)
    requires forall j | 0 <= j < |S[i]| && j != k :: S[i][j] != S[i][k]
    ensures Heap(w, Rekind(C, S[i][k], Loose), end, S[i := RemoveAt(S[i], k)], Ts)
    ensures LiveKept(m, w, C)
  {
    var p := S[i][k];
    var D, S' := Rekind(C, p, Loose), S[i := RemoveAt(S[i], k)];
    var N := {Owner(f), Owner(b)};
    hide Tagged, LinksOnly, Ring, TreeBinsOK;
    LinksLive(m, w, C, end, N);
    if f != SmallBinAt(i) { SmallNodesClear(C, end, i, f); }
    if b != SmallBinAt(i) { SmallNodesClear(C, end, i, b); }
    forall j | 0 <= j < 32 ensures SmallBinOK(w, D, S'[j], j) {
      assert SmallBinOK(m, C, S[j], j);
      if j == i {
        forall l | 0 <= l < |S'[i]| ensures SmallMember(D, i, S'[i][l]) {
          var o := if l < k then l else l + 1;
          assert S'[i][l] == S[i][o] && SmallMember(C, i, S[i][o]);
        }
      } else {
        OtherSmallBin(m, w, C, D, end, N, S[j], j);
      }
    }
    forall a | a in D && D[a].kind == Small ensures InSmallBin(D, S', a) {
      assert InSmallBin(C, S, a);
      if C[a].n == i { InRemoveAt(S[i], k, a); }
    }
    TreesKeptByLinks(m, w, C, D, end, N, Ts);
    RekindTiled(C, end, p, Loose);
    LinksTagged(m, w, C, end, N);
    RekindTags(w, C, end, p, Loose);
  }

  lemma InRemoveAt(r: seq<int>, k: int, a: int)
    requires 0 <= k < |r| && a in r && a != r[k]
    ensures a in RemoveAt(r, k)
  {
    var j :| 0 <= j < |r| && r[j] == a;
    assert RemoveAt(r, k)[if j < k then j else j - 1] == a;
  }

  /** The memory after p has been unlinked: nothing is written when p was alone in its bin. */
  function Unlinked(m: Memory, f: int, b: int): Memory
    requires Fits(|m|, f) && Fits(|m|, b)
  {
    if f == b then m else Cut(m, f, b)
  }

  lemma UnlinkSmall(m: Memory, C: Chunks, end: int, S: seq<seq<int>>, Ts: seq<Trie>, i: nat, k: nat)
    requires Heap(m, C, end, S, Ts) && i < 32 && k < |S[i]|
    ensures var p := S[i][k]; var f, b := Fd(m, p), Bk(m, p);
      && SmallMember(C, i, p) && Fits(|m|, f) && Fits(|m|, b)
      && (f == b <==> |S[i]| == 1)
      && Heap(Unlinked(m, f, b), Rekind(C, p, Loose), end, S[i := RemoveAt(S[i], k)], Ts)
      && LiveKept(m, Unlinked(m, f, b), C)
  {
    hide Heap, Linked, Tagged;
    assert Tiled(C, end) && SmallBinsOK(m, C, S) by { HeapParts(m, C, end, S, Ts); }
    UnlinkSmallRing(m, C, end, S, i, k);
    var p := S[i][k];
    var f, b := Fd(m, p), Bk(m, p);
    if f != SmallBinAt(i) { SmallNodesClear(C, end, i, f); }
    if b != SmallBinAt(i) { SmallNodesClear(C, end, i, b); }
    if f == b {
      NoLinks(m, C, end, {Owner(f), Owner(b)});
    } else {
      CutLinks(m, C, end, f, b);
      CutWords(m, f, b);
    }
    UnlinkSmallRest(m, Unlinked(m, f, b), C, end, S, Ts, i, k, f, b);
  }

  lemma HeapParts(m: Memory, C: Chunks, end: int, S: seq<seq<int>>, Ts: seq<Trie>)
    requires Heap(m, C, end, S, Ts)
    ensures Tiled(C, end) && Tagged(m, C, end) && SmallBinsOK(m, C, S) && TreeBinsOK(m, C, Ts)
  {}

  lemma NoLinks(m: Memory, C: Chunks, end: int, N: set<int>)
    requires forall q | q in N :: q == 0 || (q in C && Free(C[q]))
    ensures LinksOnly(m, m, C, end, N)
  {}

  /** The first chunk of a marked bin, as its header's fd word. */
  lemma FirstSmall(m: Memory, C: Chunks, end: int, S: seq<seq<int>>, Ts: seq<Trie>, i: nat)
    requires Heap(m, C, end, S, Ts) && i < 32 && S[i] != []
    ensures Fd(m, SmallBinAt(i)) == S[i][0] && SmallMember(C, i, S[i][0])
  {
    assert SmallBinOK(m, C, S[i], i);
    assert LinkAt(m, SmallRing(i, S[i]), 0);
  }

  /** The place of a small chunk in its bin. */
  lemma WhereSmall(m: Memory, C: Chunks, end: int, S: seq<seq<int>>, Ts: seq<Trie>, p: int) returns (k: nat)
    requires Heap(m, C, end, S, Ts) && p in C && C[p].kind == Small
    ensures C[p].n < 32 && k < |S[C[p].n]| && S[C[p].n][k] == p
  {
    assert InSmallBin(C, S, p);
    k :| 0 <= k < |S[C[p].n]| && S[C[p].n][k] == p;
  }

  /** Nothing is written when an unbinned free chunk changes its label. */
  lemma RekindHeap(m: Memory, C: Chunks, end: int, S: seq<seq<int>>, Ts: seq<Trie>, p: int, k: Kind)
    requires Heap(m, C, end, S, Ts) && p in C && C[p].kind in {Loose, Dv} && k in {Loose, Dv}
    ensures Heap(m, Rekind(C, p, k), end, S, Ts)
  {
    var D := Rekind(C, p, k);
    RekindTiled(C, end, p, k);
    RekindTags(m, C, end, p, k);
    forall q | q in C ensures BodyKept(m, m, C, q) {}
    SmallBinsKept(m, m, C, D, end, {}, S);
    TreeBinsKept(m, m, C, D, end, {}, Ts);
  }
}
