/** The distributed lock of lock.c: every interleaving of set, test and clear by any number of PEs.

    Each action is one atomic step of one PE: a compare-and-swap on the owner's word, a read or
    write of its own node, or a remote put. A state holds the owner's word, the node words of all
    PEs, where each PE stands in its call and what its local "cmp" holds, and how many puts it has
    issued that are not complete. */
module Lock {

  const FREE: int := -1
  const RESET: int := 0
  const ACQUIRED: int := 1

  // ----- The union shmem_lock_t -----

  predicate Int16(x: int) { -0x8000 <= x < 0x8000 }
  function Signed(x: int, limit: int): int requires limit > 0 { if x < limit / 2 then x else x - limit }

  /** The 32-bit word with locked in its low half and next in its high half. */
  function Blob(locked: int, next: int): int {
    Signed(locked % 0x1_0000 + next % 0x1_0000 * 0x1_0000, 0x1_0000_0000)
  }

  function LockedOf(blob: int): int { Signed(blob % 0x1_0000, 0x1_0000) }
  function NextOf(blob: int): int { Signed(blob % 0x1_0000_0000 / 0x1_0000, 0x1_0000) }

  /** The two halves can be read back, so distinct claims are distinct words. */
  lemma BlobExact(locked: int, next: int)
    requires Int16(locked) && Int16(next)
    ensures LockedOf(Blob(locked, next)) == locked && NextOf(Blob(locked, next)) == next
    ensures Blob(locked, next) == RESET <==> locked == 0 && next == 0
  {
    HalfExact(locked);
    HalfExact(next);
    HalvesExact(locked % 0x1_0000, next % 0x1_0000);
  }

  lemma HalfExact(x: int)
    requires Int16(x)
    ensures 0 <= x % 0x1_0000 < 0x1_0000 && Signed(x % 0x1_0000, 0x1_0000) == x
  {}

  lemma HalvesExact(low: nat, high: nat)
    requires low < 0x1_0000 && high < 0x1_0000
    ensures var w := Signed(low + high * 0x1_0000, 0x1_0000_0000);
      w % 0x1_0000 == low && w % 0x1_0000_0000 / 0x1_0000 == high
  {}

  /** What a PE that takes the lock stores in the owner's word. */
  function Claim(me: int): int { Blob(ACQUIRED, me) }

  // ----- States -----

  /** cmp is an uninitialised local until a compare-and-swap has filled it. */
  datatype Cmp = Undefined | Word(blob: int)

  datatype Node = Node(locked: int, next: int)

  /** Where a PE stands. Names starting with Set belong to set_lock_execute, which test_lock
      shares. */
  datatype Pc =
    | Idle
    | SetRequest            // about to swap in the claim
    | SetRetry              // about to test the result of the swap
    | TestRequest
    | TestExecute
    | SetTail               // about to write node->next = FREE
    | SetBranch             // about to test cmp->locked
    | SetMark               // chain: node->locked = ACQUIRED
    | SetChain              // chain: put into the predecessor's node
    | SetSpin               // chain: wait on node->locked
    | Holding
    | ClearQuiet
    | ClearRequest          // about to test node->next
    | ClearSwap
    | ClearExecute          // about to test cmp->next
    | ClearWait             // wait for a chainer
    | ClearNotify           // put into the next PE's node

  datatype State = State(owner: int, nodes: seq<Node>, pcs: seq<Pc>, cmps: seq<Cmp>, puts: seq<nat>)

  datatype Action =
    | CallSet(pe: nat)
    | CallTest(pe: nat)
    | CallClear(pe: nat)     // only holders may
    | IssuePut(pe: nat)      // any put of the critical section
    | CompletePut(pe: nat)   // the network, at any time
    | Step(pe: nat)          // the next step of the call under way

  ghost predicate Sized(s: State, n: nat) {
    && 0 < n <= 0x8000
    && |s.nodes| == |s.pcs| == |s.cmps| == |s.puts| == n
  }

  ghost predicate Init(s: State, n: nat) {
    && Sized(s, n) && s.owner == RESET
    && forall i | 0 <= i < n :: s.nodes[i] == Node(RESET, 0) && s.pcs[i] == Idle && s.puts[i] == 0
  }

  // ----- Steps -----

  function At(s: State, pe: nat, pc: Pc): State
    requires pe < |s.pcs|
  {
    s.(pcs := s.pcs[pe := pc])
  }

  /** shmem_int_atomic_compare_swap on the owner's word: cmp gets what was there. */
  function Swap(s: State, pe: nat, cond: int, value: int, pc: Pc): State
    requires pe < |s.pcs| && pe < |s.cmps|
  {
    At(s.(owner := if s.owner == cond then value else s.owner, cmps := s.cmps[pe := Word(s.owner)]), pe, pc)
  }

  function PutNext(nodes: seq<Node>, to: int, next: int): seq<Node> {
    if 0 <= to < |nodes| then nodes[to := nodes[to].(next := next)] else nodes
  }

  function PutLocked(nodes: seq<Node>, to: int, locked: int): seq<Node> {
    if 0 <= to < |nodes| then nodes[to := nodes[to].(locked := locked)] else nodes
  }

  predicate Enabled(s: State, n: nat, a: Action) {
    && |s.nodes| == |s.pcs| == |s.cmps| == |s.puts| == n && a.pe < n
    && match a
       case CallSet(pe) => s.pcs[pe] == Idle
       case CallTest(pe) => s.pcs[pe] == Idle
       case CallClear(pe) => s.pcs[pe] == Holding
       case IssuePut(pe) => s.pcs[pe] == Holding
       case CompletePut(pe) => s.puts[pe] > 0
       case Step(pe) =>
         // Without a value in cmp, a test of it has no meaning; shmemc_quiet waits for the puts.
         && s.pcs[pe] != Idle && s.pcs[pe] != Holding
         && (s.pcs[pe] in {SetRetry, TestExecute, SetBranch, SetChain, ClearExecute} ==> s.cmps[pe].Word?)
         && (s.pcs[pe] == ClearQuiet ==> s.puts[pe] == 0)
  }

  function Next(s: State, n: nat, a: Action): State
    requires Enabled(s, n, a)
  {
    match a
    case CallSet(pe) => At(s.(cmps := s.cmps[pe := Undefined]), pe, SetRequest)
    case CallTest(pe) => At(s.(cmps := s.cmps[pe := Undefined]), pe, TestRequest)
    case CallClear(pe) => At(s.(cmps := s.cmps[pe := Undefined]), pe, ClearQuiet)
    case IssuePut(pe) => s.(puts := s.puts[pe := s.puts[pe] + 1])
    case CompletePut(pe) => s.(puts := s.puts[pe := s.puts[pe] - 1])
    case Step(me) =>
      match s.pcs[me]
      case SetRequest => Swap(s, me, RESET, Claim(me), SetRetry)
      case SetRetry => At(s, me, if s.cmps[me].blob != RESET then SetRequest else SetTail)
      case TestRequest => Swap(s, me, RESET, Claim(me), TestExecute)
      case TestExecute => At(s, me, if s.cmps[me].blob == RESET then SetTail else Idle)
      case SetTail => At(s.(nodes := s.nodes[me := s.nodes[me].(next := FREE)]), me, SetBranch)
      case SetBranch => At(s, me, if LockedOf(s.cmps[me].blob) == ACQUIRED then SetMark else Holding)
      case SetMark => At(s.(nodes := s.nodes[me := s.nodes[me].(locked := ACQUIRED)]), me, SetChain)
      case SetChain => At(s.(nodes := PutNext(s.nodes, NextOf(s.cmps[me].blob), me)), me, SetSpin)
      case SetSpin => At(s, me, if s.nodes[me].locked == ACQUIRED then SetSpin else Holding)
      case ClearQuiet => At(s, me, ClearRequest)
      case ClearRequest => At(s, me, if s.nodes[me].next == FREE then ClearSwap else ClearExecute)
      case ClearSwap => Swap(s, me, Claim(me), RESET, ClearExecute)
      case ClearExecute => At(s, me, if NextOf(s.cmps[me].blob) == me then Idle else ClearWait)
      case ClearWait => At(s, me, if s.nodes[me].next == FREE then ClearWait else ClearNotify)
      case ClearNotify => At(s.(nodes := PutLocked(s.nodes, s.nodes[me].next, RESET)), me, Idle)
      case Idle => s
      case Holding => s
  }

  // ----- The invariant -----

  /** From the swap that put in its claim to the swap that takes it out. */
  predicate Owns(pc: Pc, cmp: Cmp) {
    || pc in {SetTail, SetBranch, Holding, ClearQuiet, ClearRequest, ClearSwap}
    || (pc in {SetRetry, TestExecute} && cmp == Word(RESET))
  }

  /** What is true of PE i by itself. */
  predicate PeOK(i: int, node: Node, pc: Pc, cmp: Cmp, puts: nat) {
    && pc !in {SetMark, SetChain, SetSpin, ClearWait, ClearNotify}
    && node.locked == RESET && node.next in {0, FREE}
    && (pc in {SetRetry, TestExecute} ==> cmp.Word?)
    && (pc in {SetTail, SetBranch} ==> cmp == Word(RESET))
    && (pc in {SetBranch, Holding, ClearQuiet, ClearRequest, ClearSwap} ==> node.next == FREE)
    && (pc == ClearExecute ==> cmp == Word(Claim(i)))
    && (puts > 0 ==> pc in {Holding, ClearQuiet})
  }

  ghost predicate PeFine(s: State, i: int)
    requires 0 <= i < |s.nodes| == |s.pcs| == |s.cmps| == |s.puts|
  {
    PeOK(i, s.nodes[i], s.pcs[i], s.cmps[i], s.puts[i])
  }

  ghost predicate Inv(s: State, n: nat) {
    && Sized(s, n)
    && (forall i | 0 <= i < n :: PeFine(s, i))
    && (forall i | 0 <= i < n && Owns(s.pcs[i], s.cmps[i]) :: s.owner == Claim(i))
    && (s.owner == RESET || exists i :: 0 <= i < n && Owns(s.pcs[i], s.cmps[i]))
  }

  lemma InitInv(s: State, n: nat)
    requires Init(s, n)
    ensures Inv(s, n)
  {}

  lemma ClaimExact(i: int, j: int, n: nat)
    requires 0 <= i < n && 0 <= j < n && n <= 0x8000
    ensures Claim(i) != RESET && NextOf(Claim(i)) == i && (Claim(i) == Claim(j) ==> i == j)
  {
    BlobExact(ACQUIRED, i);
    BlobExact(ACQUIRED, j);
  }

  /** Only the acting PE moves, and it keeps to what is true of a PE. */
  lemma StepPe(s: State, n: nat, a: Action, i: nat)
    requires Inv(s, n) && Enabled(s, n, a) && i < n
    ensures Sized(Next(s, n, a), n) && PeFine(Next(s, n, a), i)
    ensures i != a.pe ==> Next(s, n, a).pcs[i] == s.pcs[i] && Next(s, n, a).cmps[i] == s.cmps[i] && Next(s, n, a).nodes[i] == s.nodes[i]
  {
    hide Blob, LockedOf, NextOf, PeOK;
    if i == a.pe {
      StepSelf(s, n, a);
    } else {
      assert PeFine(s, i) && PeFine(s, a.pe);
      QuietPe(s, a.pe);
    }
  }

  lemma StepSelf(s: State, n: nat, a: Action)
    requires Inv(s, n) && Enabled(s, n, a)
    ensures Sized(Next(s, n, a), n) && PeFine(Next(s, n, a), a.pe)
  {
    hide Blob, LockedOf, NextOf;
    assert PeFine(s, a.pe);
    ResetParts();
    ClaimExact(a.pe, a.pe, n);
  }

  /** A PE that keeps to what is true of it is not where it would write to another's node. */
  lemma QuietPe(s: State, i: int)
    requires 0 <= i < |s.nodes| == |s.pcs| == |s.cmps| == |s.puts| && PeFine(s, i)
    ensures s.pcs[i] != SetChain && s.pcs[i] != ClearNotify
  {}

  lemma ResetParts()
    ensures LockedOf(RESET) == RESET && NextOf(RESET) == 0
  {}

  /** The owner's word changes hands only by a swap that finds it reset, or finds the claim of
      the swapper. */
  lemma StepOwner(s: State, n: nat, a: Action)
    requires Inv(s, n) && Enabled(s, n, a)
    ensures var t := Next(s, n, a);
      if s.owner == RESET && a.Step? && s.pcs[a.pe] in {SetRequest, TestRequest}
      then t.owner == Claim(a.pe) && Owns(t.pcs[a.pe], t.cmps[a.pe])
      else if a.Step? && s.pcs[a.pe] == ClearSwap then t.owner == RESET && !Owns(t.pcs[a.pe], t.cmps[a.pe])
      else t.owner == s.owner && (Owns(t.pcs[a.pe], t.cmps[a.pe]) <==> Owns(s.pcs[a.pe], s.cmps[a.pe]))
  {
    hide Blob, LockedOf, NextOf;
    assert PeFine(s, a.pe);
    ResetParts();
    ClaimExact(a.pe, a.pe, n);
  }

  /** Every step keeps the invariant. */
  lemma StepInv(s: State, n: nat, a: Action)
    requires Inv(s, n) && Enabled(s, n, a)
    ensures Inv(Next(s, n, a), n)
  {
    hide Blob, LockedOf, NextOf, PeOK, Owns, Next, PeFine;
    var t := Next(s, n, a);
    StepPe(s, n, a, a.pe);
    StepOwner(s, n, a);
    forall i: int | 0 <= i < n
      ensures PeFine(t, i) && (i != a.pe ==> t.pcs[i] == s.pcs[i] && t.cmps[i] == s.cmps[i])
    {
      StepPe(s, n, a, i);
      ClaimExact(i, a.pe, n);
    }
    forall i | 0 <= i < n && Owns(t.pcs[i], t.cmps[i]) ensures t.owner == Claim(i) {
      ClaimExact(i, a.pe, n);
      ClearOwns(s, a);
    }
    if t.owner != RESET && t.owner == s.owner {
      var i :| 0 <= i < n && Owns(s.pcs[i], s.cmps[i]);
      assert Owns(t.pcs[i], t.cmps[i]);
    }
  }

  lemma ClearOwns(s: State, a: Action)
    requires a.pe < |s.pcs| && a.pe < |s.cmps|
    ensures s.pcs[a.pe] == ClearSwap ==> Owns(s.pcs[a.pe], s.cmps[a.pe])
  {}

  // ----- Runs -----

  /** A run of n PEs: each state follows from the one before by some enabled action. */
  ghost predicate Run(trace: seq<State>, n: nat) {
    && |trace| > 0 && Init(trace[0], n)
    && forall k | 0 < k < |trace| :: Follows(trace[k - 1], trace[k], n)
  }

  ghost predicate Follows(s: State, t: State, n: nat) {
    exists a :: Enabled(s, n, a) && t == Next(s, n, a)
  }

  lemma {:induction false} RunInv(trace: seq<State>, n: nat, k: nat)
    requires Run(trace, n) && k < |trace|
    ensures Inv(trace[k], n)
  {
    if k == 0 {
      InitInv(trace[0], n);
    } else {
      RunInv(trace, n, k - 1);
      hide Inv, Init, Enabled, Next;
      assert Follows(trace[k - 1], trace[k], n);
      var a :| Enabled(trace[k - 1], n, a) && trace[k] == Next(trace[k - 1], n, a);
      StepInv(trace[k - 1], n, a);
    }
  }

  /** The PE has completed set or test and has not called clear. */
  predicate Holds(s: State, i: nat) { i < |s.pcs| && s.pcs[i] == Holding }

  /** The PE has swapped in its claim and not swapped it out. */
  predicate Claims(s: State, i: nat) { i < |s.pcs| && i < |s.cmps| && Owns(s.pcs[i], s.cmps[i]) }

  /** In every run, no two PEs hold the lock or are between its two swaps; the owner's word is
      reset exactly when none is, and otherwise names the one that is. */
  lemma MutualExclusion(trace: seq<State>, n: nat, k: nat, i: nat, j: nat)
    requires Run(trace, n) && k < |trace| && i < n && j < n
    ensures Claims(trace[k], i) && Claims(trace[k], j) ==> i == j
    ensures Holds(trace[k], i) ==> Claims(trace[k], i)
    ensures trace[k].owner == RESET <==> !exists h: nat :: h < n && Claims(trace[k], h)
    ensures Claims(trace[k], i) ==> NextOf(trace[k].owner) == i && LockedOf(trace[k].owner) == ACQUIRED
  {
    RunInv(trace, n, k);
    ClaimExact(i, j, n);
    BlobExact(ACQUIRED, i);
    var s := trace[k];
    if s.owner == RESET {
      forall h: nat | h < n ensures !Claims(s, h) { ClaimExact(h, h, n); }
    } else {
      var h: int :| 0 <= h < n && Owns(s.pcs[h], s.cmps[h]);
      var m: nat := h;
      assert Claims(s, m);
    }
  }

  /** When a PE's claim is in, every put of every other PE is complete: nothing of an earlier
      critical section can arrive in a later one. */
  lemma PutsComplete(trace: seq<State>, n: nat, k: nat, i: nat, j: nat)
    requires Run(trace, n) && k < |trace| && i < n && j < n && i != j && Claims(trace[k], i)
    ensures j < |trace[k].puts| && trace[k].puts[j] == 0
  {
    RunInv(trace, n, k);
    MutualExclusion(trace, n, k, i, j);
    assert PeFine(trace[k], j);
  }

  /** The queueing code is never reached: no PE is ever chained to another, waits for its own
      node, waits for a chainer, or wakes one. */
  lemma NeverChained(trace: seq<State>, n: nat, k: nat, i: nat)
    requires Run(trace, n) && k < |trace| && i < n
    ensures i < |trace[k].pcs| && trace[k].pcs[i] !in {SetMark, SetChain, SetSpin, ClearWait, ClearNotify}
  {
    RunInv(trace, n, k);
    assert PeFine(trace[k], i);
  }

  /** A PE that is about to clear finds its node free, so it swaps; the swap finds its own claim;
      and the result it then tests is the one the swap left, which names itself. */
  lemma ClearSucceeds(trace: seq<State>, n: nat, k: nat, i: nat)
    requires Run(trace, n) && k < |trace| && i < n
    ensures i < |trace[k].pcs| && i < |trace[k].nodes| && i < |trace[k].cmps|
    ensures trace[k].pcs[i] in {Holding, ClearQuiet, ClearRequest} ==> trace[k].nodes[i].next == FREE
    ensures trace[k].pcs[i] == ClearSwap ==> trace[k].owner == Claim(i)
    ensures trace[k].pcs[i] == ClearExecute ==> trace[k].cmps[i] == Word(Claim(i)) && NextOf(Claim(i)) == i
  {
    RunInv(trace, n, k);
    ClaimExact(i, i, n);
    assert PeFine(trace[k], i);
  }

  /** No value of cmp is used before a swap has set it: a call that is under way can always take
      its next step, but for shmemc_quiet waiting for puts to complete. */
  lemma NeverUndefined(trace: seq<State>, n: nat, k: nat, i: nat)
    requires Run(trace, n) && k < |trace| && i < n && !Holds(trace[k], i)
    ensures i < |trace[k].pcs| && i < |trace[k].puts|
    ensures trace[k].pcs[i] == Idle || Enabled(trace[k], n, Step(i)) || (trace[k].pcs[i] == ClearQuiet && trace[k].puts[i] > 0)
  {
    RunInv(trace, n, k);
    assert PeFine(trace[k], i);
  }

  /** No step writes the node of another PE. */
  lemma OwnNodeOnly(trace: seq<State>, n: nat, k: nat, a: Action, i: nat)
    requires Run(trace, n) && k < |trace| && Enabled(trace[k], n, a) && i < n && i != a.pe
    ensures i < |trace[k].nodes| == |Next(trace[k], n, a).nodes| && Next(trace[k], n, a).nodes[i] == trace[k].nodes[i]
  {
    RunInv(trace, n, k);
    StepPe(trace[k], n, a, i);
  }

  // ----- Arrival order -----

  /** Each state follows from the one before; any state may come first. */
  ghost predicate Walk(seg: seq<State>, n: nat) {
    |seg| > 0 && forall k | 0 < k < |seg| :: Follows(seg[k - 1], seg[k], n)
  }

  /** The PE has called set and does not hold the lock yet. */
  predicate Asking(s: State, i: nat) {
    i < |s.pcs| && s.pcs[i] in {SetRequest, SetRetry, SetTail, SetBranch}
  }

  predicate SameAt(s: State, t: State, i: nat) {
    && i < |s.pcs| == |t.pcs| && i < |s.cmps| == |t.cmps|
    && s.pcs[i] == t.pcs[i] && s.cmps[i] == t.cmps[i]
  }

  /** From s, PE j gets the lock at the end, and PE i does not get it on the way. */
  ghost predicate Overtakes(seg: seq<State>, n: nat, s: State, i: nat, j: nat) {
    && Walk(seg, n) && seg[0] == s && Holds(seg[|seg| - 1], j)
    && forall k | 0 <= k < |seg| :: !Holds(seg[k], i)
  }

  lemma WalkFrom(s: State, n: nat, a: Action, rest: seq<State>)
    requires Enabled(s, n, a) && Walk(rest, n) && rest[0] == Next(s, n, a)
    ensures Walk([s] + rest, n)
  {
    var seg := [s] + rest;
    hide Enabled, Next;
    forall k | 0 < k < |seg| ensures Follows(seg[k - 1], seg[k], n) {
      if k > 1 { assert Follows(rest[k - 2], rest[k - 1], n); }
    }
  }

  lemma WalksJoin(a: seq<State>, b: seq<State>, n: nat)
    requires Walk(a, n) && Walk(b, n) && a[|a| - 1] == b[0]
    ensures Walk(a + b[1..], n)
  {
    hide Follows;
    var seg := a + b[1..];
    forall k | 0 < k < |seg| ensures Follows(seg[k - 1], seg[k], n) {
      if k < |a| {
        assert Follows(a[k - 1], a[k], n);
      } else {
        assert Follows(b[k - |a|], b[k - |a| + 1], n);
      }
    }
  }

  /** The other PEs do not notice a step that is put in front of a walk. */
  lemma OthersSame(s: State, n: nat, a: Action, rest: seq<State>)
    requires Inv(s, n) && Enabled(s, n, a) && Walk(rest, n) && rest[0] == Next(s, n, a)
    requires forall k, p: nat | 0 <= k < |rest| && p < n && p != a.pe :: SameAt(rest[k], rest[0], p)
    ensures Walk([s] + rest, n)
    ensures forall k, p: nat | 0 <= k < |rest| + 1 && p < n && p != a.pe :: SameAt(([s] + rest)[k], s, p)
  {
    WalkFrom(s, n, a, rest);
    forall k, p: nat | 0 <= k < |rest| + 1 && p < n && p != a.pe ensures SameAt(([s] + rest)[k], s, p) {
      StepPe(s, n, a, p);
      assert SameAt(rest[0], s, p);
      hide Inv, Enabled, Next;
      if k > 0 { assert SameAt(rest[k - 1], rest[0], p); }
    }
  }

  /** How far a PE that owns the word is from swapping it out. */
  function ToRelease(pc: Pc): nat {
    match pc
    case SetRetry => 7
    case TestExecute => 7
    case SetTail => 6
    case SetBranch => 5
    case Holding => 4
    case ClearQuiet => 3
    case ClearRequest => 2
    case _ => 1
  }

  function OwnerAction(s: State, h: nat): Action
    requires h < |s.pcs| == |s.puts|
  {
    if s.pcs[h] == Holding then CallClear(h)
    else if s.pcs[h] == ClearQuiet && s.puts[h] > 0 then CompletePut(h)
    else Step(h)
  }

  /** The PE that owns the word is never stuck: it has an action of its own that frees the word,
      or brings it closer to that, or leaves it fewer puts to wait for. */
  lemma OwnerMoves(s: State, n: nat, h: nat)
    requires Inv(s, n) && h < n && Owns(s.pcs[h], s.cmps[h])
    ensures OwnerAction(s, h).pe == h && Enabled(s, n, OwnerAction(s, h))
    ensures var t := Next(s, n, OwnerAction(s, h));
      t.owner == RESET || (h < |t.pcs| == |t.cmps| == |t.puts| && Owns(t.pcs[h], t.cmps[h])
        && (ToRelease(t.pcs[h]) < ToRelease(s.pcs[h]) || (t.pcs[h] == s.pcs[h] && t.puts[h] < s.puts[h])))
  {
    hide Blob, LockedOf, NextOf;
    assert PeFine(s, h);
    ResetParts();
  }

  /** From any state the word can become free by steps of its owner alone. */
  lemma {:induction false} Releases(s: State, n: nat, h: nat) returns (seg: seq<State>)
    requires Inv(s, n) && h < n && Owns(s.pcs[h], s.cmps[h])
    ensures Walk(seg, n) && seg[0] == s && seg[|seg| - 1].owner == RESET && Inv(seg[|seg| - 1], n)
    ensures forall k, p: nat | 0 <= k < |seg| && p < n && p != h :: SameAt(seg[k], s, p)
    decreases ToRelease(s.pcs[h]), s.puts[h]
  {
    var a := OwnerAction(s, h);
    OwnerMoves(s, n, h);
    StepInv(s, n, a);
    var t := Next(s, n, a);
    var rest := [t];
    hide Next, Enabled, Owns, Follows, OwnerAction;
    if t.owner != RESET { rest := Releases(t, n, h); }
    hide Inv, SameAt, ToRelease;
    OthersSame(s, n, a, rest);
    seg := [s] + rest;
  }

  lemma EntrantMoves(s: State, n: nat, j: nat)
    requires Inv(s, n) && j < n && Asking(s, j) && (Owns(s.pcs[j], s.cmps[j]) || (s.pcs[j] == SetRequest && s.owner == RESET))
    ensures Enabled(s, n, Step(j))
    ensures var t := Next(s, n, Step(j));
      j < |t.pcs| == |t.cmps| && Owns(t.pcs[j], t.cmps[j]) && (t.pcs[j] == Holding || Asking(t, j)) && Entering(t.pcs[j]) < Entering(s.pcs[j])
  {
    hide Blob, LockedOf, NextOf;
    assert PeFine(s, j);
    ResetParts();
  }

  function Entering(pc: Pc): nat {
    if pc == SetRequest then 4 else if pc == SetRetry then 3 else if pc == SetTail then 2 else if pc == SetBranch then 1 else 0
  }

  /** A PE that finds the word free, or whose claim is in, can take the lock by its own steps. */
  lemma {:induction false} Enters(s: State, n: nat, j: nat) returns (seg: seq<State>)
    requires Inv(s, n) && j < n && Asking(s, j) && (Owns(s.pcs[j], s.cmps[j]) || (s.pcs[j] == SetRequest && s.owner == RESET))
    ensures Walk(seg, n) && seg[0] == s && Holds(seg[|seg| - 1], j)
    ensures forall k, p: nat | 0 <= k < |seg| && p < n && p != j :: SameAt(seg[k], s, p)
    decreases Entering(s.pcs[j])
  {
    EntrantMoves(s, n, j);
    StepInv(s, n, Step(j));
    var t := Next(s, n, Step(j));
    var rest := [t];
    hide Next, Enabled, Owns, Follows;
    if t.pcs[j] != Holding { rest := Enters(t, n, j); }
    hide Inv, SameAt, Entering, Asking;
    OthersSame(s, n, Step(j), rest);
    seg := [s] + rest;
  }

  lemma CallsSet(s: State, n: nat, j: nat) returns (t: State)
    requires Inv(s, n) && j < n && s.pcs[j] == Idle && s.owner == RESET
    ensures Enabled(s, n, CallSet(j)) && t == Next(s, n, CallSet(j)) && Inv(t, n)
    ensures t.owner == RESET && t.pcs[j] == SetRequest && forall p: nat | p < n && p != j :: SameAt(t, s, p)
  {
    t := Next(s, n, CallSet(j));
    StepInv(s, n, CallSet(j));
    forall p: nat | p < n && p != j ensures SameAt(t, s, p) { StepPe(s, n, CallSet(j), p); }
  }

  /** The owner, if there is one, lets go of the word. */
  lemma Frees(s: State, n: nat, i: nat, j: nat) returns (seg: seq<State>)
    requires Inv(s, n) && i < n && j < n && i != j && !Claims(s, i) && s.pcs[j] == Idle
    ensures Walk(seg, n) && seg[0] == s && seg[|seg| - 1].owner == RESET && Inv(seg[|seg| - 1], n)
    ensures forall k | 0 <= k < |seg| :: SameAt(seg[k], s, i) && SameAt(seg[k], s, j)
  {
    seg := [s];
    if s.owner != RESET {
      var h: int :| 0 <= h < n && Owns(s.pcs[h], s.cmps[h]);
      assert Claims(s, h) && h != i && h != j;
      hide Owns, Follows, Inv;
      seg := Releases(s, n, h);
    }
  }

  /** A PE that is asking and whose claim is not in can be overtaken by any idle PE: from here,
      PE j can call set, get the lock and hold it while PE i is still where it is. */
  lemma Overtaken(s: State, n: nat, i: nat, j: nat) returns (seg: seq<State>, m: nat)
    requires Inv(s, n) && i < n && j < n && i != j && Asking(s, i) && !Claims(s, i) && s.pcs[j] == Idle
    ensures Overtakes(seg, n, s, i, j) && forall k | 0 <= k < |seg| :: SameAt(seg[k], s, i)
    ensures m + 1 < |seg| && j < |seg[m].pcs| == |seg[m + 1].pcs| && seg[m].pcs[j] == Idle && seg[m + 1].pcs[j] == SetRequest
  {
    var a := Frees(s, n, i, j);
    m := |a| - 1;
    assert SameAt(a[m], s, i) && SameAt(a[m], s, j);
    var t := CallsSet(a[m], n, j);
    hide Owns, Follows, Inv, Next, Enabled;
    var b := Enters(t, n, j);
    WalkFrom(a[m], n, CallSet(j), b);
    var c := [a[m]] + b;
    WalksJoin(a, c, n);
    seg := a + c[1..];
    forall k | 0 <= k < |seg| ensures SameAt(seg[k], s, i) {
      if k < |a| { assert SameAt(a[k], s, i); } else { assert SameAt(b[k - |a|], t, i) && SameAt(t, a[m], i); }
    }
    assert seg[|seg| - 1] == b[|b| - 1];
  }

  lemma {:induction false} WalkInv(seg: seq<State>, n: nat, k: nat)
    requires Walk(seg, n) && Inv(seg[0], n) && k < |seg|
    ensures Inv(seg[k], n)
  {
    if k > 0 {
      WalkInv(seg, n, k - 1);
      hide Inv, Enabled, Next;
      assert Follows(seg[k - 1], seg[k], n);
      var a :| Enabled(seg[k - 1], n, a) && seg[k] == Next(seg[k - 1], n, a);
      StepInv(seg[k - 1], n, a);
    }
  }

  /** The step that takes the claim of PE i out. */
  predicate SwapsOut(s: State, t: State, i: nat) {
    i < |s.pcs| == |t.pcs| && s.pcs[i] == ClearSwap && t.pcs[i] == ClearExecute
  }

  /** A claim stays in until the PE itself swaps it out, and a PE whose claim is in does not stop
      asking but by getting the lock. */
  lemma ClaimStep(s: State, t: State, n: nat, i: nat)
    requires Inv(s, n) && Follows(s, t, n) && i < n && Claims(s, i)
    ensures SwapsOut(s, t, i) || Claims(t, i)
    ensures Asking(s, i) ==> Holds(t, i) || Asking(t, i)
  {
    hide Enabled, Next, Claims, Asking, Holds, SwapsOut;
    var a :| Enabled(s, n, a) && t == Next(s, n, a);
    if a.pe != i {
      StepPe(s, n, a, i);
      SameClaims(s, t, i);
    } else {
      OwnClaimStep(s, n, a);
    }
  }

  lemma SameClaims(s: State, t: State, i: nat)
    requires SameAt(s, t, i)
    ensures (Claims(s, i) <==> Claims(t, i)) && (Asking(s, i) <==> Asking(t, i))
  {}

  lemma OwnClaimStep(s: State, n: nat, a: Action)
    requires Inv(s, n) && Enabled(s, n, a) && Claims(s, a.pe)
    ensures SwapsOut(s, Next(s, n, a), a.pe) || Claims(Next(s, n, a), a.pe)
    ensures Asking(s, a.pe) ==> Holds(Next(s, n, a), a.pe) || Asking(Next(s, n, a), a.pe)
  {
    hide Blob, LockedOf, NextOf;
    assert PeFine(s, a.pe);
    ResetParts();
  }

  lemma {:induction false} ClaimKept(seg: seq<State>, n: nat, i: nat, k: nat)
    requires Walk(seg, n) && Inv(seg[0], n) && i < n && k < |seg| && Claims(seg[0], i)
    requires forall m | 0 < m <= k :: !SwapsOut(seg[m - 1], seg[m], i)
    ensures Claims(seg[k], i)
  {
    if k > 0 {
      hide Inv, Follows, Claims, SwapsOut;
      ClaimKept(seg, n, i, k - 1);
      WalkInv(seg, n, k - 1);
      ClaimStep(seg[k - 1], seg[k], n, i);
    }
  }

  /** Once the claim of a PE is in, no other PE holds the lock before it has swapped it out. */
  lemma InTurn(seg: seq<State>, n: nat, i: nat, j: nat, k: nat)
    requires Walk(seg, n) && Inv(seg[0], n) && i < n && j < n && i != j && k < |seg| && Claims(seg[0], i)
    requires Holds(seg[k], j)
    ensures exists m :: 0 < m <= k && SwapsOut(seg[m - 1], seg[m], i)
  {
    if forall m | 0 < m <= k :: !SwapsOut(seg[m - 1], seg[m], i) {
      ClaimKept(seg, n, i, k);
      WalkInv(seg, n, k);
      ClaimExact(i, j, n);
      assert false;
    }
  }

  lemma {:induction false} StillAsking(seg: seq<State>, n: nat, i: nat, k: nat)
    requires Walk(seg, n) && Inv(seg[0], n) && i < n && k < |seg| && Asking(seg[0], i) && Claims(seg[0], i)
    requires forall m | 0 <= m < |seg| :: !Holds(seg[m], i)
    ensures Asking(seg[k], i) && Claims(seg[k], i)
  {
    if k > 0 {
      hide Inv, Follows, Claims, Holds;
      StillAsking(seg, n, i, k - 1);
      WalkInv(seg, n, k - 1);
      ClaimStep(seg[k - 1], seg[k], n, i);
    }
  }

  /** Arrival order, exactly: in any state of any run, a PE that is asking can be overtaken by a
      PE that has not even called if and only if its claim is not in, that is, unless its last
      swap found the word reset. */
  lemma ArrivalOrder(trace: seq<State>, n: nat, k: nat, i: nat, j: nat)
    requires Run(trace, n) && k < |trace| && i < n && j < n && i != j
    requires Asking(trace[k], i) && j < |trace[k].pcs| && trace[k].pcs[j] == Idle
    ensures (exists seg :: Overtakes(seg, n, trace[k], i, j)) <==> !Claims(trace[k], i)
  {
    var s := trace[k];
    RunInv(trace, n, k);
    if Claims(s, i) {
      forall seg ensures !Overtakes(seg, n, s, i, j) {
        if Overtakes(seg, n, s, i, j) {
          StillAsking(seg, n, i, |seg| - 1);
          WalkInv(seg, n, |seg| - 1);
          ClaimExact(i, j, n);
          assert false;
        }
      }
    } else {
      var seg, m := Overtaken(s, n, i, j);
    }
  }

  lemma Start(n: nat) returns (s: State)
    requires 0 < n <= 0x8000
    ensures Init(s, n)
  {
    s := State(RESET, seq(n, _ => Node(RESET, 0)), seq(n, _ => Idle), seq(n, _ => Undefined), seq(n, _ => 0));
  }

  /** In particular, whatever the number of PEs, a run can have any PE i ask first and any other
      PE j, idle until later, hold the lock while i is still asking. */
  lemma OvertakenRun(n: nat, i: nat, j: nat) returns (trace: seq<State>, m: nat)
    requires n <= 0x8000 && i < n && j < n && i != j
    ensures Run(trace, n) && 0 < m < |trace| && j < |trace[m].pcs| && trace[m].pcs[j] == Idle
    ensures forall k | 0 < k < |trace| :: Asking(trace[k], i)
    ensures Holds(trace[|trace| - 1], j)
  {
    hide *;
    var s, t := FirstAsks(n, i, j);
    var seg;
    seg, m := Overtaken(t, n, i, j);
    OvertakesEnds(seg, n, t, i, j);
    WalkFrom(s, n, CallSet(i), seg);
    RunFrom(s, seg, n);
    trace := [s] + seg;
    m := m + 1;
    assert trace[m] == seg[m - 1];
    forall k | 0 < k < |trace| ensures Asking(trace[k], i) { AskingSame(seg[k - 1], t, i); }
  }

  lemma FirstAsks(n: nat, i: nat, j: nat) returns (s: State, t: State)
    requires n <= 0x8000 && i < n && j < n && i != j
    ensures Init(s, n) && Enabled(s, n, CallSet(i)) && t == Next(s, n, CallSet(i)) && Inv(t, n)
    ensures Asking(t, i) && !Claims(t, i) && j < |t.pcs| && t.pcs[j] == Idle
  {
    s := Start(n);
    InitInv(s, n);
    t := CallsSet(s, n, i);
    assert SameAt(t, s, j);
  }

  lemma RunFrom(s: State, seg: seq<State>, n: nat)
    requires Init(s, n) && Walk([s] + seg, n)
    ensures Run([s] + seg, n)
  {
    hide Init, Follows;
  }

  lemma AskingSame(s: State, t: State, i: nat)
    requires SameAt(s, t, i) && Asking(t, i)
    ensures Asking(s, i)
  {}

  lemma OvertakesEnds(seg: seq<State>, n: nat, s: State, i: nat, j: nat)
    requires Overtakes(seg, n, s, i, j)
    ensures Walk(seg, n) && |seg| > 0 && seg[0] == s && Holds(seg[|seg| - 1], j)
  {}

  // ----- How calls end -----

  function PcAt(s: State, i: nat): Pc { if i < |s.pcs| then s.pcs[i] else Idle }
  function CmpAt(s: State, i: nat): Cmp { if i < |s.cmps| then s.cmps[i] else Undefined }
  predicate Testing(pc: Pc) { pc in {TestRequest, TestExecute} }
  predicate Clearing(pc: Pc) { pc in {ClearQuiet, ClearRequest, ClearSwap, ClearExecute} }

  /** What one step of any PE does to the call PE i is in. */
  ghost predicate CallGoesOn(s: State, t: State, i: nat) {
    && (Asking(s, i) ==> Asking(t, i) || Holds(t, i))
    && (PcAt(s, i) == TestRequest ==>
          PcAt(t, i) == TestRequest || (PcAt(t, i) == TestExecute && CmpAt(t, i) == Word(s.owner)))
    && (PcAt(s, i) == TestExecute ==>
          PcAt(t, i) in {TestExecute, if CmpAt(s, i) == Word(RESET) then SetTail else Idle} && CmpAt(t, i) == CmpAt(s, i))
    && (Clearing(PcAt(s, i)) ==> Clearing(PcAt(t, i)) || PcAt(t, i) == Idle)
    && (Holds(s, i) ==> Holds(t, i) || PcAt(t, i) == ClearQuiet)
    && (PcAt(s, i) == Idle ==> PcAt(t, i) in {Idle, SetRequest, TestRequest})
  }

  lemma OwnCall(s: State, n: nat, a: Action)
    requires Inv(s, n) && Enabled(s, n, a)
    ensures CallGoesOn(s, Next(s, n, a), a.pe)
  {
    hide Blob, LockedOf, NextOf;
    assert PeFine(s, a.pe);
    ResetParts();
    ClaimExact(a.pe, a.pe, n);
  }

  lemma StandsBy(s: State, t: State, i: nat)
    requires SameAt(s, t, i)
    ensures CallGoesOn(s, t, i)
  {}

  lemma CallStep(s: State, n: nat, a: Action, i: nat)
    requires Inv(s, n) && Enabled(s, n, a) && i < n
    ensures CallGoesOn(s, Next(s, n, a), i)
  {
    hide CallGoesOn, Enabled, Next;
    if i == a.pe {
      OwnCall(s, n, a);
    } else {
      StepPe(s, n, a, i);
      StandsBy(s, Next(s, n, a), i);
    }
  }

  lemma TraceStep(trace: seq<State>, n: nat, k: nat, i: nat)
    requires Run(trace, n) && k + 1 < |trace| && i < n
    ensures CallGoesOn(trace[k], trace[k + 1], i)
  {
    RunInv(trace, n, k);
    hide Enabled, Next, Init, CallGoesOn, Inv;
    assert Follows(trace[k], trace[k + 1], n);
    var a :| Enabled(trace[k], n, a) && trace[k + 1] == Next(trace[k], n, a);
    CallStep(trace[k], n, a, i);
  }

  lemma GoesOn(s: State, t: State, i: nat)
    requires CallGoesOn(s, t, i)
    ensures Asking(s, i) && !Holds(t, i) ==> Asking(t, i)
    ensures PcAt(s, i) == TestRequest ==> Testing(PcAt(t, i)) && (PcAt(t, i) == TestExecute ==> CmpAt(t, i) == Word(s.owner))
    ensures PcAt(s, i) == TestExecute && Testing(PcAt(t, i)) ==> PcAt(t, i) == TestExecute && CmpAt(t, i) == CmpAt(s, i)
    ensures PcAt(s, i) == TestExecute && !Testing(PcAt(t, i)) ==> PcAt(t, i) == if CmpAt(s, i) == Word(RESET) then SetTail else Idle
    ensures Clearing(PcAt(s, i)) && PcAt(t, i) != Idle ==> Clearing(PcAt(t, i))
  {}

  /** shmem_set_lock does not return without the lock: a PE that has called it is in the call
      until it holds the lock. */
  lemma {:induction false} SetEnds(trace: seq<State>, n: nat, i: nat, k: nat, m: nat)
    requires Run(trace, n) && i < n && k <= m < |trace| && Asking(trace[k], i)
    requires forall h | k < h <= m :: !Holds(trace[h], i)
    ensures Asking(trace[m], i)
    decreases m
  {
    hide *;
    if m > k {
      SetEnds(trace, n, i, k, m - 1);
      TraceStep(trace, n, m - 1, i);
      GoesOn(trace[m - 1], trace[m], i);
    }
  }

  /** A call of PE i to shmem_test_lock that has not ended by state m. */
  ghost predicate TestSpan(trace: seq<State>, i: nat, k: nat, m: nat) {
    && k <= m < |trace| && PcAt(trace[k], i) == TestRequest
    && forall h | k <= h <= m :: Testing(PcAt(trace[h], i))
  }

  lemma TestSpanLess(trace: seq<State>, i: nat, k: nat, m: nat)
    requires TestSpan(trace, i, k, m) && k < m
    ensures TestSpan(trace, i, k, m - 1) && Testing(PcAt(trace[m], i)) && Testing(PcAt(trace[m - 1], i))
  {}

  /** The swap of a test was made in state j: before it the PE is about to swap, after it only
      about to look at what the swap found. */
  ghost predicate SwappedAt(trace: seq<State>, i: nat, k: nat, j: nat, m: nat) {
    && k <= j < m < |trace|
    && (forall h | k <= h <= j :: PcAt(trace[h], i) == TestRequest)
    && (forall h | j < h <= m :: PcAt(trace[h], i) == TestExecute && CmpAt(trace[h], i) == Word(trace[j].owner))
  }

  lemma SwappedMore(trace: seq<State>, i: nat, k: nat, j: nat, m: nat)
    requires 0 < m < |trace| && SwappedAt(trace, i, k, j, m - 1)
    requires PcAt(trace[m], i) == TestExecute && CmpAt(trace[m], i) == CmpAt(trace[m - 1], i)
    ensures SwappedAt(trace, i, k, j, m) && PcAt(trace[m - 1], i) == TestExecute
  {}

  lemma NotYetMore(trace: seq<State>, i: nat, k: nat, m: nat)
    requires k < m < |trace| && forall h | k <= h <= m - 1 :: PcAt(trace[h], i) == TestRequest
    ensures PcAt(trace[m - 1], i) == TestRequest
    ensures PcAt(trace[m], i) == TestRequest ==> forall h | k <= h <= m :: PcAt(trace[h], i) == TestRequest
    ensures PcAt(trace[m], i) == TestExecute && CmpAt(trace[m], i) == Word(trace[m - 1].owner) ==> SwappedAt(trace, i, k, m - 1, m)
  {}

  lemma SwappedLast(trace: seq<State>, i: nat, k: nat, j: nat, m: nat)
    requires SwappedAt(trace, i, k, j, m)
    ensures PcAt(trace[m], i) == TestExecute && CmpAt(trace[m], i) == Word(trace[j].owner)
  {}

  lemma {:induction false} OneSwap(trace: seq<State>, n: nat, i: nat, k: nat, m: nat)
    requires Run(trace, n) && i < n && k <= m < |trace| && TestSpan(trace, i, k, m)
    ensures (forall h | k <= h <= m :: PcAt(trace[h], i) == TestRequest) || exists j: nat :: SwappedAt(trace, i, k, j, m)
    decreases m
  {
    hide *;
    if m == k {
      TestSpanStart(trace, i, k);
    } else {
      TestSpanLess(trace, i, k, m);
      OneSwap(trace, n, i, k, m - 1);
      TraceStep(trace, n, m - 1, i);
      GoesOn(trace[m - 1], trace[m], i);
      var p := m - 1;
      if j: nat :| SwappedAt(trace, i, k, j, p) {
        SwappedLast(trace, i, k, j, p);
        SwappedMore(trace, i, k, j, m);
      } else {
        NotYetMore(trace, i, k, m);
        TestingIs(PcAt(trace[m], i));
      }
    }
  }

  lemma TestSpanStart(trace: seq<State>, i: nat, k: nat)
    requires TestSpan(trace, i, k, k)
    ensures forall h | k <= h <= k :: PcAt(trace[h], i) == TestRequest
  {}

  lemma TestingIs(pc: Pc)
    ensures Testing(pc) <==> pc == TestRequest || pc == TestExecute
  {}

  /** shmem_test_lock swaps once, in some state j, and then returns without the lock exactly when
      the word was set there; otherwise its claim is in and it goes on to take the lock, like a
      set (SetEnds). */
  lemma TestEnds(trace: seq<State>, n: nat, i: nat, k: nat, m: nat) returns (j: nat)
    requires Run(trace, n) && i < n && TestSpan(trace, i, k, m) && m + 1 < |trace| && !Testing(PcAt(trace[m + 1], i))
    ensures SwappedAt(trace, i, k, j, m)
    ensures if trace[j].owner == RESET then Asking(trace[m + 1], i) && Claims(trace[m + 1], i) else PcAt(trace[m + 1], i) == Idle
  {
    OneSwap(trace, n, i, k, m);
    TraceStep(trace, n, m, i);
    GoesOn(trace[m], trace[m + 1], i);
    TestSpanLast(trace, i, k, m);
    if PcAt(trace[m], i) == TestRequest { assert false; }
    j :| SwappedAt(trace, i, k, j, m);
    SwappedLast(trace, i, k, j, m);
    RunInv(trace, n, m + 1);
    hide Run, Inv;
  }

  lemma TestSpanLast(trace: seq<State>, i: nat, k: nat, m: nat)
    requires TestSpan(trace, i, k, m)
    ensures Testing(PcAt(trace[m], i))
  {}

  lemma {:induction false} ClearStays(trace: seq<State>, n: nat, i: nat, k: nat, m: nat)
    requires Run(trace, n) && i < n && k <= m < |trace| && Clearing(PcAt(trace[k], i))
    requires forall h | k < h <= m :: PcAt(trace[h], i) != Idle
    ensures Clearing(PcAt(trace[m], i))
    decreases m
  {
    hide *;
    if m > k {
      ClearStays(trace, n, i, k, m - 1);
      TraceStep(trace, n, m - 1, i);
      GoesOn(trace[m - 1], trace[m], i);
    }
  }

  lemma RunWalk(trace: seq<State>, n: nat, k: nat, m: nat)
    requires Run(trace, n) && k <= m < |trace|
    ensures Walk(trace[k..m + 1], n)
  {
    hide Follows;
    var seg := trace[k..m + 1];
    forall h | 0 < h < |seg| ensures Follows(seg[h - 1], seg[h], n) {
      assert Follows(trace[k + h - 1], trace[k + h], n);
    }
  }

  lemma ClaimOfClear(s: State, n: nat, i: nat)
    requires Sized(s, n) && i < n
    ensures PcAt(s, i) == ClearQuiet ==> Claims(s, i)
    ensures PcAt(s, i) == Idle ==> !Claims(s, i)
  {}

  lemma ClaimLeaves(seg: seq<State>, n: nat, i: nat) returns (g: nat)
    requires Walk(seg, n) && Inv(seg[0], n) && i < n && Claims(seg[0], i) && !Claims(seg[|seg| - 1], i)
    ensures 0 < g < |seg| && SwapsOut(seg[g - 1], seg[g], i)
  {
    hide Follows, Inv, Claims, SwapsOut;
    if forall g | 0 < g <= |seg| - 1 :: !SwapsOut(seg[g - 1], seg[g], i) {
      ClaimKept(seg, n, i, |seg| - 1);
      assert false;
    }
    g :| 0 < g <= |seg| - 1 && SwapsOut(seg[g - 1], seg[g], i);
  }

  lemma RunSized(trace: seq<State>, n: nat, k: nat)
    requires Run(trace, n) && k < |trace|
    ensures Sized(trace[k], n)
  {
    RunInv(trace, n, k);
  }

  /** shmem_clear_lock returns only after its swap has taken the claim out of the word. */
  lemma ClearEnds(trace: seq<State>, n: nat, i: nat, k: nat, m: nat) returns (h: nat)
    requires Run(trace, n) && i < n && k < m < |trace| && PcAt(trace[k], i) == ClearQuiet && PcAt(trace[m], i) == Idle
    ensures k < h <= m && SwapsOut(trace[h - 1], trace[h], i)
  {
    hide *;
    RunInv(trace, n, k);
    RunWalk(trace, n, k, m);
    RunSized(trace, n, k);
    RunSized(trace, n, m);
    ClaimOfClear(trace[k], n, i);
    ClaimOfClear(trace[m], n, i);
    var g := ClaimLeaves(trace[k..m + 1], n, i);
    h := k + g;
  }

  /** Steps that are left of a call, when nothing is in its way. */
  function Left(pc: Pc): nat {
    match pc
    case Idle => 0
    case Holding => 0
    case SetBranch => 1
    case SetTail => 2
    case SetRetry => 3
    case TestExecute => 3
    case SetRequest => 4
    case TestRequest => 4
    case ClearExecute => 1
    case ClearSwap => 2
    case ClearRequest => 3
    case ClearQuiet => 4
    case _ => 5
  }

  /** Every call can take its next step and comes nearer its end by it, but for a clear that waits
      for its puts and a set while the word is set, which swaps again. */
  lemma NotStuck(s: State, n: nat, i: nat)
    requires Inv(s, n) && i < n && s.pcs[i] != Idle && s.pcs[i] != Holding && (s.pcs[i] == ClearQuiet ==> s.puts[i] == 0)
    ensures Enabled(s, n, Step(i)) && i < |Next(s, n, Step(i)).pcs|
    ensures var t := Next(s, n, Step(i));
      if s.pcs[i] == SetRetry && !Claims(s, i) then t.pcs[i] == SetRequest
      else Left(t.pcs[i]) < Left(s.pcs[i]) && (s.pcs[i] == SetRequest && s.owner == RESET ==> Claims(t, i))
  {
    hide Blob, LockedOf, NextOf;
    assert PeFine(s, i);
    ResetParts();
    ClaimExact(i, i, n);
  }
}
