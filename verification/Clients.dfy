/** Whole runs: any sequence of calls by a client that frees and writes only what it holds. */
module Clients {
  import opened Sizes
  import opened Layout
  import opened SmallOps
  import opened Moves
  import opened States
  import opened Freeing
  import opened Reshape
  import opened Blocks
  import opened Resizing
  import opened Words
  import opened Align
  import opened Plans
  import opened Mspaces

  /** What a client may do; a pointer is a chunk's address plus two words. Write is a store of
      its own into word k of a payload. */
  datatype Call =
    | Malloc(bytes: nat)
    | Free(mem: int)
    | Realloc(mem: int, bytes: nat)
    | Memalign(alignment: nat, bytes: nat)
    | Write(mem: int, k: nat, value: int)

  ghost predicate Legal(b: BlockMap, c: Call) {
    match c
    case Malloc(bytes) => bytes < SIZE_T_LIMIT
    case Free(mem) => mem == 0 || mem - 2 in b
    case Realloc(mem, bytes) => bytes < SIZE_T_LIMIT && (mem == 0 || mem - 2 in b)
    case Memalign(alignment, bytes) => bytes < SIZE_T_LIMIT && alignment <= SIZE_T_LIMIT / 2
    case Write(mem, k, value) => mem - 2 in b && k < |b[mem - 2]|
  }

  /** One more block, at p, of at least the bytes asked for. */
  ghost predicate Added(b: BlockMap, c: BlockMap, p: int, bytes: nat) {
    p !in b && p in c && c - {p} == b && bytes <= 8 * |c[p]|
  }

  /** What the call may do to the map of blocks, and what it returns: an allocator that hands
      out blocks from nowhere in particular. A null result leaves the map alone. */
  ghost predicate Abstract(b: BlockMap, call: Call, r: int, c: BlockMap) {
    match call
    case Malloc(bytes) => if r == 0 then c == b else Added(b, c, r - 2, bytes)
    case Free(mem) => c == if mem == 0 then b else b - {mem - 2}
    case Realloc(mem, bytes) =>
      if r == 0 then c == b
      else if mem == 0 then Added(b, c, r - 2, bytes)
      else Resized(b, c, mem - 2, r - 2, Request2Size(bytes))
    case Memalign(alignment, bytes) => if r == 0 then c == b else Added(b, c, r - 2, bytes)
    case Write(mem, k, value) => mem - 2 in b && k < |b[mem - 2]| && c == b[mem - 2 := b[mem - 2][k := value]]
  }

  /** The client's own store. */
  method Store(ms: Mspace, mem: int, k: nat, value: int)
    requires ms.Valid() && mem - 2 in ms.Allocated() && k < |ms.Allocated()[mem - 2]|
    modifies ms.mem
    ensures ms.Valid() && Abstract(old(ms.Allocated()), Write(mem, k, value), 0, ms.Allocated())
  {
    hide Heap, MapsOK, DvOK, TopOK;
    ghost var m := ms.mem[..];
    LiveMember(m, ms.C, ms.end, ms.S, ms.Ts, mem - 2);
    ChunkBounds(m, ms.C, ms.end, ms.S, ms.Ts, mem - 2);
    ms.mem[mem + k] := value;
    assert ms.mem[..] == m[mem + k := value];
    PayloadHeap(m, ms.mem[..], ms.C, ms.end, ms.S, ms.Ts, mem - 2);
    LiveWritten(m, ms.C, mem - 2, k, value);
  }

  lemma LiveWritten(m: Memory, C: Chunks, p: int, k: nat, value: int)
    requires p in Live(m, C) && k < |Live(m, C)[p]| && 0 <= p && p + 2 + k < |m| && LiveKeptBut(m, m[p + 2 + k := value], C, p)
    ensures Live(m[p + 2 + k := value], C) == Live(m, C)[p := Live(m, C)[p][k := value]]
  {
    var w := m[p + 2 + k := value];
    LiveBut(m, w, C, p);
    forall j | 0 <= j < C[p].n - 1 ensures Payload(w, C, p)[j] == Payload(m, C, p)[k := value][j] {
      assert Payload(w, C, p)[j] == At(w, p + 2 + j) && Payload(m, C, p)[j] == At(m, p + 2 + j);
    }
    assert Payload(w, C, p) == Payload(m, C, p)[k := value];
    assert forall q | q in Live(m, C) && q != p :: Live(w, C)[q] == (Live(w, C) - {p})[q];
  }

  method Perform(ms: Mspace, base: nat, c: Call) returns (r: int)
    requires ms.Valid() && Legal(ms.Allocated(), c)
    requires base % 8 == 0 && base + 8 * ms.mem.Length <= SIZE_T_LIMIT
    modifies ms, ms.mem
    ensures ms.Valid() && Abstract(old(ms.Allocated()), c, r, ms.Allocated())
  {
    hide Heap, MapsOK, DvOK, TopOK, Live, Resized, Served, LiveKept, LiveKeptBut, CanServe, CanAlign, CanRealloc;
    hide Chosen, SmallAfter, PlanOf, MallocPlan, FreePlan, ShrinkPlan, GrowPlan, Mspace.AlignedFrom;
    r := 0;
    match c
    case Malloc(bytes) => r := ms.Malloc(bytes);
    case Free(mem) =>
      if mem != 0 { LiveMember(ms.mem[..], ms.C, ms.end, ms.S, ms.Ts, mem - 2); }
      ms.Free(mem);
    case Realloc(mem, bytes) => r := ms.Realloc(mem, bytes);
    case Memalign(alignment, bytes) => r := ms.Memalign(base, alignment, bytes);
    case Write(mem, k, value) => Store(ms, mem, k, value);
  }

  // ----- Runs -----

  /** A client picks each call from the results so far. */
  type Client = seq<int> -> Call

  /** From b on, the client and the abstract allocator could have gone through these maps. */
  ghost predicate AbstractRun(client: Client, b: BlockMap, maps: seq<BlockMap>, results: seq<int>) {
    && |maps| == |results| + 1 && maps[0] == b
    && forall i | 0 <= i < |results| :: StepAt(client, maps, results, i)
  }

  ghost predicate StepAt(client: Client, maps: seq<BlockMap>, results: seq<int>, i: nat)
    requires i < |results| < |maps|
  {
    Abstract(maps[i], client(results[..i]), results[i], maps[i + 1])
  }

  /** Whatever the abstract allocator does, the client's next call is legal. */
  ghost predicate Lawful(client: Client, b: BlockMap) {
    forall maps, results | AbstractRun(client, b, maps, results) :: Legal(maps[|results|], client(results))
  }

  lemma RunExtends(client: Client, b: BlockMap, maps: seq<BlockMap>, results: seq<int>, r: int, c: BlockMap)
    requires AbstractRun(client, b, maps, results) && Abstract(maps[|results|], client(results), r, c)
    ensures AbstractRun(client, b, maps + [c], results + [r])
  {
    forall i | 0 <= i < |results| + 1 ensures StepAt(client, maps + [c], results + [r], i) {
      if i < |results| {
        assert StepAt(client, maps, results, i) && (results + [r])[..i] == results[..i];
      } else {
        assert (results + [r])[..i] == results;
      }
    }
  }

  /** A client that is lawful against the abstract allocator never breaks the heap, and cannot
      tell the mspace from the abstract allocator. */
  method Run(ms: Mspace, base: nat, client: Client, steps: nat) returns (results: seq<int>, ghost maps: seq<BlockMap>)
    requires ms.Valid() && base % 8 == 0 && base + 8 * ms.mem.Length <= SIZE_T_LIMIT
    requires Lawful(client, ms.Allocated())
    modifies ms, ms.mem
    ensures ms.Valid() && |results| == steps
    ensures AbstractRun(client, old(ms.Allocated()), maps, results) && maps[steps] == ms.Allocated()
  {
    hide Heap, MapsOK, DvOK, TopOK, Live, Abstract, Legal;
    ghost var b := ms.Allocated();
    results, maps := [], [b];
    for n := 0 to steps
      invariant ms.Valid() && |results| == n
      invariant AbstractRun(client, b, maps, results) && maps[n] == ms.Allocated()
    {
      assert Legal(maps[|results|], client(results));
      var r := Perform(ms, base, client(results));
      RunExtends(client, b, maps, results, r, ms.Allocated());
      results, maps := results + [r], maps + [ms.Allocated()];
    }
  }

  /** The call is not about block p. */
  predicate LeavesAlone(c: Call, p: int) {
    match c
    case Malloc(_) => true
    case Memalign(_, _) => true
    case Free(mem) => mem == 0 || mem - 2 != p
    case Realloc(mem, _) => mem == 0 || mem - 2 != p
    case Write(mem, _, _) => mem - 2 != p
  }

  /** A block stays, and keeps its contents, until the client itself frees, resizes or writes it. */
  lemma {:induction false} BlockPersists(client: Client, b: BlockMap, maps: seq<BlockMap>, results: seq<int>, p: int)
    requires AbstractRun(client, b, maps, results) && p in b
    requires forall i | 0 <= i < |results| :: LeavesAlone(client(results[..i]), p)
    ensures p in maps[|results|] && maps[|results|][p] == b[p]
    decreases |results|
  {
    var n := |results|;
    if n > 0 {
      var rs, ms := results[..n - 1], maps[..n];
      forall i | 0 <= i < n - 1 ensures StepAt(client, ms, rs, i) && LeavesAlone(client(rs[..i]), p) {
        assert StepAt(client, maps, results, i) && rs[..i] == results[..i];
        assert LeavesAlone(client(results[..i]), p);
      }
      BlockPersists(client, b, ms, rs, p);
      assert StepAt(client, maps, results, n - 1) && LeavesAlone(client(results[..n - 1]), p);
      StepLeaves(maps[n - 1], client(rs), results[n - 1], maps[n], p);
    }
  }

  lemma StepLeaves(b: BlockMap, call: Call, r: int, c: BlockMap, p: int)
    requires Abstract(b, call, r, c) && LeavesAlone(call, p) && p in b
    ensures p in c && c[p] == b[p]
  {
    assert p in c - {r - 2} ==> c[p] == (c - {r - 2})[p];
    match call
    case Malloc(_) => assert r != 0 ==> p in c - {r - 2};
    case Memalign(_, _) => assert r != 0 ==> p in c - {r - 2};
    case Free(mem) =>
    case Realloc(mem, _) =>
      if r != 0 && mem != 0 {
        assert p in b - {mem - 2} && p in c - {r - 2};
      } else {
        assert r != 0 ==> p in c - {r - 2};
      }
    case Write(mem, k, value) =>
  }
}
