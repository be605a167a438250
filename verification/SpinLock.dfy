/** The reentrant spin lock of ptmalloc.c: every interleaving of acquire, try and release by any
    number of threads, one load, store or locked instruction at a time. */
module SpinLocks {

  const UINT_LIMIT: nat := 0x1_0000_0000

  /** pthread_self() of thread i: distinct, and never the 0 that marks a free lock. */
  function Id(i: nat): nat { i + 1 }

  /** Where a thread stands: outside any call (it may hold the lock there), or before the named
      action of its call. */
  datatype Pc =
    | Outside
    | AcquireTest      // compare threadid with its own, without synchronisation
    | AcquireLoad      // ++c: load
    | AcquireStore     // ++c: store
    | AcquireSwap      // the spinning cmpxchg on l
    | TrySwap          // the only cmpxchg of pthread_try_lock
    | TakeId           // threadid = CURRENT_THREAD
    | TakeCount        // c = 1
    | ReleaseLoad      // --c: load
    | ReleaseStore     // --c: store
    | ReleaseTest      // test the new count
    | ReleaseId        // threadid = 0
    | ReleaseSwap      // the xchg that stores 0 in l

  /** depths counts, for each thread, the acquires it has completed less the releases it has
      started; regs are the values threads have loaded. */
  datatype State = State(threadid: nat, c: nat, l: nat, pcs: seq<Pc>, regs: seq<nat>, depths: seq<nat>)

  /** A thread calls, or takes the next step of its call. */
  datatype Action = CallAcquire(t: nat) | CallTry(t: nat) | CallRelease(t: nat) | Step(t: nat)

  ghost predicate Sized(s: State, n: nat) { |s.pcs| == |s.regs| == |s.depths| == n }

  ghost predicate Init(s: State, n: nat) {
    && Sized(s, n) && s.threadid == s.c == s.l == 0
    && forall i | 0 <= i < n :: s.pcs[i] == Outside && s.depths[i] == 0
  }

  /** Only a holder releases, and nobody nests 2^32 deep. */
  predicate Enabled(s: State, n: nat, a: Action) {
    && |s.pcs| == |s.regs| == |s.depths| == n && a.t < n
    && match a
       case CallAcquire(t) => s.pcs[t] == Outside && s.depths[t] < UINT_LIMIT - 1
       case CallTry(t) => s.pcs[t] == Outside
       case CallRelease(t) => s.pcs[t] == Outside && s.depths[t] > 0
       case Step(t) => s.pcs[t] != Outside
  }

  function At(s: State, t: nat, pc: Pc): State
    requires t < |s.pcs|
  {
    s.(pcs := s.pcs[t := pc])
  }

  function Next(s: State, n: nat, a: Action): State
    requires Enabled(s, n, a)
  {
    match a
    case CallAcquire(t) => At(s, t, AcquireTest)
    case CallTry(t) => At(s, t, TrySwap)
    case CallRelease(t) => At(s.(depths := s.depths[t := s.depths[t] - 1]), t, ReleaseLoad)
    case Step(t) =>
      match s.pcs[t]
      case AcquireTest => At(s, t, if Id(t) == s.threadid then AcquireLoad else AcquireSwap)
      case AcquireLoad => At(s.(regs := s.regs[t := s.c]), t, AcquireStore)
      case AcquireStore =>
        At(s.(c := (s.regs[t] + 1) % UINT_LIMIT, depths := s.depths[t := s.depths[t] + 1]), t, Outside)
      case AcquireSwap => if s.l == 0 then At(s.(l := 1), t, TakeId) else s
      case TrySwap => if s.l == 0 then At(s.(l := 1), t, TakeId) else At(s, t, Outside)
      case TakeId => At(s.(threadid := Id(t)), t, TakeCount)
      case TakeCount => At(s.(c := 1, depths := s.depths[t := s.depths[t] + 1]), t, Outside)
      case ReleaseLoad => At(s.(regs := s.regs[t := s.c]), t, ReleaseStore)
      case ReleaseStore => At(s.(c := (s.regs[t] + UINT_LIMIT - 1) % UINT_LIMIT), t, ReleaseTest)
      case ReleaseTest => At(s, t, if s.c == 0 then ReleaseId else Outside)
      case ReleaseId => At(s.(threadid := 0), t, ReleaseSwap)
      case ReleaseSwap => At(s.(l := 0), t, Outside)
      case Outside => s
  }

  // ----- The invariant -----

  /** From the cmpxchg that takes the lock to the xchg that frees it. */
  predicate Inside(pc: Pc, depth: nat) {
    depth > 0 || pc in {TakeId, TakeCount, ReleaseLoad, ReleaseStore, ReleaseTest, ReleaseId, ReleaseSwap}
  }

  /** What a thread's place says about its depth. */
  predicate LocalOK(pc: Pc, depth: nat) {
    && depth < UINT_LIMIT
    && (pc in {AcquireLoad, AcquireStore} ==> depth > 0)
    && (pc in {AcquireTest, AcquireLoad, AcquireStore, ReleaseLoad, ReleaseStore} ==> depth < UINT_LIMIT - 1)
    && (pc in {AcquireSwap, TakeId, TakeCount, ReleaseId, ReleaseSwap} ==> depth == 0)
  }

  /** What the fields hold while thread i is inside. */
  predicate SharedOK(i: nat, threadid: nat, c: nat, pc: Pc, reg: nat, depth: nat) {
    && threadid == (if pc in {TakeId, ReleaseSwap} then 0 else Id(i))
    && (pc in {Outside, AcquireTest, AcquireLoad, AcquireStore, TrySwap, ReleaseTest, ReleaseId} ==> c == depth)
    && (pc == AcquireStore ==> reg == depth)
    && (pc in {ReleaseLoad, ReleaseStore} ==> c == depth + 1)
    && (pc == ReleaseStore ==> reg == depth + 1)
  }

  ghost predicate ThreadOK(s: State, i: nat)
    requires i < |s.pcs| == |s.regs| == |s.depths|
  {
    && LocalOK(s.pcs[i], s.depths[i])
    && (Inside(s.pcs[i], s.depths[i]) ==> s.l == 1 && SharedOK(i, s.threadid, s.c, s.pcs[i], s.regs[i], s.depths[i]))
  }

  ghost predicate InsideAt(s: State, i: nat)
    requires |s.pcs| == |s.depths|
  {
    i < |s.pcs| && Inside(s.pcs[i], s.depths[i])
  }

  ghost predicate Inv(s: State, n: nat) {
    && Sized(s, n)
    && (forall i: nat | i < n :: ThreadOK(s, i))
    && (forall i: nat, j: nat | InsideAt(s, i) && InsideAt(s, j) :: i == j)
    && ((s.l == 0 && s.threadid == 0) || exists i: nat :: InsideAt(s, i))
  }

  lemma InitInv(s: State, n: nat)
    requires Init(s, n)
    ensures Inv(s, n)
  {}

  /** threadid is a thread's own id only while that thread is inside. */
  lemma OwnIdMeans(s: State, n: nat, i: nat)
    requires Inv(s, n) && i < n && s.threadid == Id(i)
    ensures InsideAt(s, i)
  {
    var h: nat :| InsideAt(s, h);
    assert ThreadOK(s, h);
  }

  /** A thread that moves keeps what it knows. */
  lemma StepOwn(s: State, n: nat, a: Action)
    requires Enabled(s, n, a) && ThreadOK(s, a.t)
    requires s.threadid == Id(a.t) ==> InsideAt(s, a.t)
    requires s.l == 0 ==> s.threadid == 0
    ensures Sized(Next(s, n, a), n) && ThreadOK(Next(s, n, a), a.t)
  {}

  /** So does a thread that stands by. */
  lemma StepOther(s: State, n: nat, a: Action, i: nat)
    requires Inv(s, n) && Enabled(s, n, a) && i < n && i != a.t
    ensures ThreadOK(Next(s, n, a), i)
  {
    assert ThreadOK(s, i) && ThreadOK(s, a.t);
    assert !(InsideAt(s, i) && InsideAt(s, a.t));
  }

  /** The lock changes hands at the locked instructions only. */
  lemma StepInside(s: State, n: nat, a: Action, i: nat)
    requires Inv(s, n) && Enabled(s, n, a) && i < n
    ensures var t := Next(s, n, a);
      && (i != a.t ==> (InsideAt(t, i) <==> InsideAt(s, i)))
      && (i == a.t && InsideAt(t, i) && !InsideAt(s, i) ==> s.l == 0)
      && (i == a.t && InsideAt(s, i) && !InsideAt(t, i) ==> t.l == 0 && t.threadid == 0)
      && (!InsideAt(s, a.t) && !InsideAt(t, a.t) ==> t.l == s.l && t.threadid == s.threadid)
  {
    assert ThreadOK(s, a.t);
  }

  lemma StepInv(s: State, n: nat, a: Action)
    requires Inv(s, n) && Enabled(s, n, a)
    ensures Inv(Next(s, n, a), n)
  {
    hide Next, Inside, LocalOK, SharedOK, ThreadOK;
    var t := Next(s, n, a);
    if s.threadid == Id(a.t) { OwnIdMeans(s, n, a.t); }
    if s.l == 0 { NobodyInside(s, n); }
    StepOwn(s, n, a);
    forall i: nat | i < n ensures ThreadOK(t, i) {
      if i != a.t { StepOther(s, n, a, i); }
    }
    forall i: nat | i < n ensures i != a.t ==> (InsideAt(t, i) <==> InsideAt(s, i)) { StepInside(s, n, a, i); }
    StepInside(s, n, a, a.t);
    if exists i: nat :: InsideAt(s, i) {
      var i: nat :| InsideAt(s, i);
      assert InsideAt(t, i) || i == a.t;
    }
  }

  lemma NobodyInside(s: State, n: nat)
    requires Inv(s, n) && s.l == 0
    ensures s.threadid == 0 && forall i: nat :: !InsideAt(s, i)
  {
    forall i: nat ensures !InsideAt(s, i) {
      if i < n { assert ThreadOK(s, i); }
    }
  }

  // ----- Runs -----

  ghost predicate Follows(s: State, t: State, n: nat) {
    exists a :: Enabled(s, n, a) && t == Next(s, n, a)
  }

  ghost predicate Run(trace: seq<State>, n: nat) {
    && |trace| > 0 && Init(trace[0], n)
    && forall k | 0 < k < |trace| :: Follows(trace[k - 1], trace[k], n)
  }

  lemma {:induction false} RunInv(trace: seq<State>, n: nat, k: nat)
    requires Run(trace, n) && k < |trace|
    ensures Inv(trace[k], n)
  {
    if k == 0 {
      InitInv(trace[0], n);
    } else {
      RunInv(trace, n, k - 1);
      hide Inv, Init, Enabled, Next;
      assert Follows(trace[k - 1], trace[k], n);
      var a :| Enabled(trace[k - 1], n, a) && trace[k] == Next(trace[k - 1], n, a);
      StepInv(trace[k - 1], n, a);
    }
  }

  /** At no time do two threads hold the lock. */
  lemma MutualExclusion(trace: seq<State>, n: nat, k: nat, i: nat, j: nat)
    requires Run(trace, n) && k < |trace| && i < |trace[k].depths| && j < |trace[k].depths|
    requires trace[k].depths[i] > 0 && trace[k].depths[j] > 0
    ensures i == j
  {
    RunInv(trace, n, k);
    assert InsideAt(trace[k], i) && InsideAt(trace[k], j);
  }

  /** The unsynchronised read finds the reader's own id exactly when the reader holds the lock. */
  lemma ReadTellsHolder(trace: seq<State>, n: nat, k: nat, i: nat)
    requires Run(trace, n) && k < |trace| && i < n
    ensures i < |trace[k].pcs| && i < |trace[k].depths|
    ensures trace[k].pcs[i] == AcquireTest ==> (trace[k].threadid == Id(i) <==> trace[k].depths[i] > 0)
  {
    RunInv(trace, n, k);
    var s := trace[k];
    assert ThreadOK(s, i);
    if h: nat :| InsideAt(s, h) {
      assert ThreadOK(s, h);
    }
  }

  /** Between a thread's calls the count is its depth; the lock is taken exactly while some
      thread is inside, and a thread outside any call is inside exactly while its acquires exceed
      its releases: the last release frees the lock, and no earlier one does. */
  lemma ReleaseBalances(trace: seq<State>, n: nat, k: nat, i: nat)
    requires Run(trace, n) && k < |trace| && i < n
    ensures i < |trace[k].pcs| == |trace[k].depths|
    ensures trace[k].pcs[i] == Outside ==> (InsideAt(trace[k], i) <==> trace[k].depths[i] > 0)
    ensures trace[k].pcs[i] == Outside && trace[k].depths[i] > 0 ==> trace[k].c == trace[k].depths[i] && trace[k].threadid == Id(i)
    ensures trace[k].l == 0 <==> !exists j: nat :: InsideAt(trace[k], j)
  {
    RunInv(trace, n, k);
    var s := trace[k];
    assert ThreadOK(s, i);
    if h: nat :| InsideAt(s, h) {
      assert ThreadOK(s, h);
    }
  }

  /** The two assertions in the code hold whenever they are reached. */
  lemma AssertionsHold(trace: seq<State>, n: nat, k: nat, i: nat)
    requires Run(trace, n) && k < |trace| && i < n
    ensures i < |trace[k].pcs|
    ensures trace[k].pcs[i] == TakeId ==> trace[k].threadid == 0
    ensures trace[k].pcs[i] == ReleaseLoad ==> trace[k].threadid == Id(i)
  {
    RunInv(trace, n, k);
    assert ThreadOK(trace[k], i);
  }

  // ----- How calls end -----

  /** On the way to holding the lock once more. */
  predicate Taking(pc: Pc) { pc in {AcquireTest, AcquireLoad, AcquireStore, AcquireSwap, TakeId, TakeCount} }
  predicate Releasing(pc: Pc) { pc in {ReleaseLoad, ReleaseStore, ReleaseTest, ReleaseId, ReleaseSwap} }

  function PcAt(s: State, i: nat): Pc { if i < |s.pcs| then s.pcs[i] else Outside }
  function DepthAt(s: State, i: nat): nat { if i < |s.depths| then s.depths[i] else 0 }

  /** What one step of any thread does to the call thread i is in. */
  ghost predicate CallGoesOn(s: State, t: State, i: nat) {
    && (Taking(PcAt(s, i)) ==>
          if PcAt(t, i) == Outside then DepthAt(t, i) == DepthAt(s, i) + 1 else Taking(PcAt(t, i)) && DepthAt(t, i) == DepthAt(s, i))
    && (PcAt(s, i) == TrySwap ==>
          DepthAt(t, i) == DepthAt(s, i) && PcAt(t, i) in {TrySwap, if s.l == 0 then TakeId else Outside})
    && (Releasing(PcAt(s, i)) ==> (Releasing(PcAt(t, i)) || PcAt(t, i) == Outside) && DepthAt(t, i) == DepthAt(s, i))
    && (PcAt(s, i) == Outside ==>
          || (PcAt(t, i) == ReleaseLoad && DepthAt(t, i) + 1 == DepthAt(s, i))
          || (PcAt(t, i) in {Outside, AcquireTest, TrySwap} && DepthAt(t, i) == DepthAt(s, i)))
  }

  lemma CallStep(s: State, n: nat, a: Action, i: nat)
    requires Sized(s, n) && Enabled(s, n, a) && i < n
    ensures Sized(Next(s, n, a), n) && CallGoesOn(s, Next(s, n, a), i)
  {
    var t := Next(s, n, a);
    if i != a.t {
      assert PcAt(t, i) == PcAt(s, i) && DepthAt(t, i) == DepthAt(s, i);
    } else {
      assert PcAt(s, i) == Outside <==> !a.Step?;
    }
  }

  lemma StaysInCall(s: State, t: State, i: nat)
    requires CallGoesOn(s, t, i) && PcAt(t, i) != Outside
    ensures Taking(PcAt(s, i)) ==> Taking(PcAt(t, i)) && DepthAt(t, i) == DepthAt(s, i)
    ensures Releasing(PcAt(s, i)) ==> Releasing(PcAt(t, i)) && DepthAt(t, i) == DepthAt(s, i)
  {}

  lemma TraceSized(trace: seq<State>, n: nat, k: nat)
    requires Run(trace, n) && k < |trace|
    ensures Sized(trace[k], n)
  {
    RunInv(trace, n, k);
  }

  lemma TraceStep(trace: seq<State>, n: nat, k: nat, i: nat)
    requires Run(trace, n) && k + 1 < |trace| && i < n
    ensures Sized(trace[k], n) && Sized(trace[k + 1], n) && CallGoesOn(trace[k], trace[k + 1], i)
  {
    TraceSized(trace, n, k);
    TraceSized(trace, n, k + 1);
    hide Enabled, Next, Init, CallGoesOn;
    assert Follows(trace[k], trace[k + 1], n);
    var a :| Enabled(trace[k], n, a) && trace[k + 1] == Next(trace[k], n, a);
    CallStep(trace[k], n, a, i);
  }

  /** A call of thread i: outside at k, in the call from k + 1 to m - 1, outside again at m. */
  ghost predicate CallSpan(trace: seq<State>, i: nat, k: nat, m: nat) {
    && k + 1 < m < |trace|
   
    && PcAt(trace[k], i) == Outside && PcAt(trace[m], i) == Outside
    && forall j | k < j < m :: PcAt(trace[j], i) != Outside
  }

  lemma {:induction false} TakingStays(trace: seq<State>, n: nat, i: nat, k: nat, m: nat)
    requires Run(trace, n) && i < n && k <= m < |trace|
    requires Taking(PcAt(trace[k], i)) && forall j | k <= j <= m :: PcAt(trace[j], i) != Outside
    ensures Taking(PcAt(trace[m], i)) && DepthAt(trace[m], i) == DepthAt(trace[k], i)
  {
    hide *;
    if m > k {
      TakingStays(trace, n, i, k, m - 1);
      TraceStep(trace, n, m - 1, i);
      StaysInCall(trace[m - 1], trace[m], i);
    }
  }

  lemma {:induction false} ReleasingStays(trace: seq<State>, n: nat, i: nat, k: nat, m: nat)
    requires Run(trace, n) && i < n && k <= m < |trace|
    requires Releasing(PcAt(trace[k], i)) && forall j | k <= j <= m :: PcAt(trace[j], i) != Outside
    ensures Releasing(PcAt(trace[m], i)) && DepthAt(trace[m], i) == DepthAt(trace[k], i)
  {
    hide *;
    if m > k {
      ReleasingStays(trace, n, i, k, m - 1);
      TraceStep(trace, n, m - 1, i);
      StaysInCall(trace[m - 1], trace[m], i);
    }
  }

  /** pthread_acquire_lock returns only with the lock held once more than before. */
  lemma AcquireEnds(trace: seq<State>, n: nat, i: nat, k: nat, m: nat)
    requires Run(trace, n) && i < n && CallSpan(trace, i, k, m) && PcAt(trace[k + 1], i) == AcquireTest
    ensures DepthAt(trace[m], i) == DepthAt(trace[k], i) + 1
  {
    hide Run;
    TraceStep(trace, n, k, i);
    TakingStays(trace, n, i, k + 1, m - 1);
    TraceStep(trace, n, m - 1, i);
  }

  /** pthread_release_lock returns with the lock held once less. */
  lemma ReleaseEnds(trace: seq<State>, n: nat, i: nat, k: nat, m: nat)
    requires Run(trace, n) && i < n && CallSpan(trace, i, k, m) && PcAt(trace[k + 1], i) == ReleaseLoad
    ensures DepthAt(trace[m], i) + 1 == DepthAt(trace[k], i)
  {
    hide Run;
    TraceStep(trace, n, k, i);
    ReleasingStays(trace, n, i, k + 1, m - 1);
    TraceStep(trace, n, m - 1, i);
  }

  /** The last state before the one cmpxchg of a try. */
  lemma {:induction false} SwapOf(trace: seq<State>, n: nat, i: nat, k: nat, m: nat) returns (j: nat)
    requires Run(trace, n) && i < n && k < m < |trace|
    requires PcAt(trace[k], i) == TrySwap && PcAt(trace[m], i) != TrySwap
    ensures k <= j < m && (forall h | k <= h <= j :: PcAt(trace[h], i) == TrySwap) && PcAt(trace[j + 1], i) != TrySwap
    decreases m - k
  {
    hide *;
    if PcAt(trace[k + 1], i) != TrySwap {
      j := k;
    } else {
      j := SwapOf(trace, n, i, k + 1, m);
    }
  }

  lemma {:induction false} TryWaits(trace: seq<State>, n: nat, i: nat, k: nat, j: nat)
    requires Run(trace, n) && i < n && k <= j < |trace| && (forall h | k <= h <= j :: PcAt(trace[h], i) == TrySwap)
    ensures DepthAt(trace[j], i) == DepthAt(trace[k], i)
  {
    if j > k {
      hide Run;
      TryWaits(trace, n, i, k, j - 1);
      TraceStep(trace, n, j - 1, i);
    }
  }

  /** pthread_try_lock swaps once, in the step from j to j + 1, and returns with the lock held
      once more exactly when that swap found it free. */
  lemma TryEnds(trace: seq<State>, n: nat, i: nat, k: nat, m: nat) returns (j: nat)
    requires Run(trace, n) && i < n && CallSpan(trace, i, k, m) && PcAt(trace[k + 1], i) == TrySwap
    ensures k < j < m && PcAt(trace[j], i) == TrySwap && forall h | j < h < m :: Taking(PcAt(trace[h], i))
    ensures DepthAt(trace[m], i) == DepthAt(trace[k], i) + if trace[j].l == 0 then 1 else 0
  {
    hide Run;
    TraceStep(trace, n, k, i);
    j := SwapOf(trace, n, i, k + 1, m);
    TryWaits(trace, n, i, k + 1, j);
    TraceStep(trace, n, j, i);
    if trace[j].l == 0 {
      forall h | j < h < m ensures Taking(PcAt(trace[h], i)) && DepthAt(trace[h], i) == DepthAt(trace[j + 1], i) {
        TakingStays(trace, n, i, j + 1, h);
      }
      TraceStep(trace, n, m - 1, i);
    }
  }

  /** Steps that are left of a call, when nothing is in its way. */
  function Left(pc: Pc): nat {
    match pc
    case Outside => 0
    case AcquireTest => 5
    case AcquireSwap => 4
    case TrySwap => 4
    case TakeId => 3
    case TakeCount => 2
    case AcquireLoad => 3
    case AcquireStore => 2
    case ReleaseLoad => 6
    case ReleaseStore => 5
    case ReleaseTest => 4
    case ReleaseId => 3
    case ReleaseSwap => 2
  }

  /** A call of a thread that is inside, or finds the lock free, comes one step nearer its end by
      each step of its own: no call is stuck but an acquire of a lock that another thread has. */
  lemma NotStuck(s: State, n: nat, i: nat)
    requires Inv(s, n) && i < n && PcAt(s, i) != Outside && (Taking(PcAt(s, i)) ==> s.l == 0 || InsideAt(s, i))
    ensures var t := Next(s, n, Step(i));
      && Left(PcAt(t, i)) < Left(PcAt(s, i)) && (Taking(PcAt(t, i)) ==> t.l == 0 || InsideAt(t, i))
  {
    assert ThreadOK(s, i);
    if s.l == 0 { NobodyInside(s, n); }
  }
}
