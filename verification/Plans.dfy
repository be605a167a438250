/** The plan of a heap: where its chunks lie, how long they are, and what each is for. What an
    operation does to the plan is a function of the plan before it. */
module Plans {
  import opened Sizes
  import opened Layout
  import opened Bins
  import opened SmallOps
  import opened TreeUnlink
  import opened States
  import opened Freeing
  import opened Reshape

  /** In use, in the one bin its size selects, dv, or top. */
  datatype Role = Used | Listed | Victim | Remnant
  datatype Cell = Cell(n: nat, role: Role)
  type Plan = map<int, Cell>

  function RoleOf(k: Kind): Role {
    match k
    case InUse => Used
    case Dv => Victim
    case Top => Remnant
    case _ => Listed
  }

  function CellOf(c: Chunk): Cell { Cell(c.n, RoleOf(c.kind)) }
  function PlanOf(C: Chunks): Plan { map a | a in C :: CellOf(C[a]) }
  function On(v: Plan, p: int): Cell { if p in v then v[p] else Cell(0, Used) }

  // ----- What the operations do -----

  /** Chunk p in two, the first k words long. */
  function CutAtPlan(v: Plan, p: int, k: nat, a: Role, b: Role): Plan {
    var n := On(v, p).n;
    v[p := Cell(k, a)][p + k := Cell(if n < k then 0 else n - k, b)]
  }

  /** Any dv but p goes to its bin. */
  function Retired(v: Plan, p: int): Plan {
    map a | a in v :: if a != p && v[a].role == Victim then Cell(v[a].n, Listed) else v[a]
  }

  /** p serves nb bytes; what is left of it, if that is a chunk, becomes rest. */
  function CarvedPlan(v: Plan, p: int, nb: nat, rest: Role): Plan {
    if 8 * On(v, p).n < nb + MIN_CHUNK_SIZE then v[p := Cell(On(v, p).n, Used)]
    else CutAtPlan(if rest == Victim then Retired(v, p) else v, p, nb / 8, Used, rest)
  }

  /** malloc of nb padded bytes, when it takes chunk p: top keeps what is left of it; what is left
      of dv, and of any chunk cut for a small request, is dv; what is left of a chunk cut for a
      large request goes to its bin. */
  function MallocPlan(v: Plan, p: int, nb: nat): Plan {
    if On(v, p).role == Remnant then CutAtPlan(v, p, nb / 8, Used, Remnant)
    else CarvedPlan(v, p, nb, if On(v, p).role == Victim || nb < MIN_LARGE_SIZE then Victim else Listed)
  }

  /** y is the free chunk before x. */
  ghost predicate FreeBefore(v: Plan, x: int, y: int) { y in v && y + v[y].n == x && v[y].role != Used }

  /** Where a free of x starts: at the free chunk before it, if there is one. */
  ghost function Start(v: Plan, x: int): int {
    if exists y :: FreeBefore(v, x, y) then var y :| FreeBefore(v, x, y); y else x
  }

  predicate JoinsNext(v: Plan, x: int) { On(v, x + On(v, x).n).role != Used }

  /** What the freed range becomes: part of top when it reaches top, else dv when it takes in dv,
      else a chunk in a bin. */
  function FreedRole(v: Plan, x: int, lo: int): Role {
    var next := On(v, x + On(v, x).n).role;
    if next == Remnant then Remnant
    else if next == Victim || (lo != x && On(v, lo).role == Victim) then Victim
    else Listed
  }

  function FreedSize(v: Plan, x: int, lo: int): int {
    x - lo + On(v, x).n + if JoinsNext(v, x) then On(v, x + On(v, x).n).n else 0
  }

  /** One chunk from lo on, in place of x and its free neighbours. */
  function FreeFrom(v: Plan, x: int, lo: int): Plan {
    var gone := {x, lo} + if JoinsNext(v, x) then {x + On(v, x).n} else {};
    (v - gone)[lo := Cell(if FreedSize(v, x, lo) < 0 then 0 else FreedSize(v, x, lo), FreedRole(v, x, lo))]
  }

  /** free of x. */
  ghost function FreePlan(v: Plan, x: int): Plan { FreeFrom(v, x, Start(v, x)) }

  /** A block cut back to nb bytes, with a remainder that is a chunk freed. */
  ghost function ShrinkPlan(v: Plan, p: int, nb: nat): Plan {
    if 8 * On(v, p).n < nb + MIN_CHUNK_SIZE then v
    else FreePlan(CutAtPlan(v, p, nb / 8, Used, Used), p + nb / 8)
  }

  /** The block p grown to k words, into top. */
  function GrowPlan(v: Plan, p: int, k: nat): Plan {
    var n := On(v, p).n;
    var t := n + On(v, p + n).n - k;
    (v - {p + n})[p := Cell(k, Used)][p + k := Cell(if t < 0 then 0 else t, Remnant)]
  }

  /** memalign's work on a block at p handed out by malloc: the part before q and what follows nb
      bytes from there, if that is more than MIN_CHUNK_SIZE, become blocks and are freed. */
  ghost function AlignPlan(v: Plan, p: int, q: int, nb: nat): Plan {
    var led := if q == p then v else CutAtPlan(v, p, if q < p then 0 else q - p, Used, Used);
    var spare := 8 * On(led, q).n > nb + MIN_CHUNK_SIZE;
    var cut := if spare then CutAtPlan(led, q, nb / 8, Used, Used) else led;
    var kept := if q == p then cut else FreePlan(cut, p);
    if spare then FreePlan(kept, q + nb / 8) else kept
  }

  // ----- The same on chunks -----

  lemma PlanAt(C: Chunks, p: int)
    requires p in C
    ensures p in PlanOf(C) && PlanOf(C)[p] == CellOf(C[p]) == On(PlanOf(C), p)
  {}

  lemma PlanIs(C: Chunks, v: Plan)
    requires C.Keys == v.Keys && forall a | a in C :: v[a] == CellOf(C[a])
    ensures PlanOf(C) == v
  {
    var w := PlanOf(C);
    forall a ensures a in w <==> a in v { assert a in C.Keys <==> a in v.Keys; }
    forall a | a in w ensures w[a] == v[a] {}
  }

  lemma PlanUnbinned(C: Chunks, D: Chunks, x: int)
    requires Unbinned(C, D, x) && Binned(C[x])
    ensures PlanOf(D) == PlanOf(C)
  {
    var v := PlanOf(C);
    assert v.Keys == C.Keys;
    PlanIs(D, v);
  }

  lemma PlanRekind(C: Chunks, p: int, k: Kind)
    requires p in C
    ensures PlanOf(Rekind(C, p, k)) == PlanOf(C)[p := Cell(C[p].n, RoleOf(k))]
    ensures RoleOf(k) == RoleOf(C[p].kind) ==> PlanOf(Rekind(C, p, k)) == PlanOf(C)
  {}

  lemma PlanRetake(C: Chunks, p: int)
    requires p in C && C[p].n > 0
    ensures PlanOf(Retake(C, p, InUse)) == PlanOf(C)[p := Cell(C[p].n, Used)]
  {
    var v := PlanOf(C)[p := Cell(C[p].n, Used)];
    assert v.Keys == C.Keys;
    PlanIs(Retake(C, p, InUse), v);
  }

  lemma PlanSplit(C: Chunks, p: int, k: nat, a: Kind, b: Kind)
    requires p in C && 0 < k < C[p].n
    ensures PlanOf(Split(C, p, k, a, b)) == CutAtPlan(PlanOf(C), p, k, RoleOf(a), RoleOf(b))
  {
    var u, D, v := PlanOf(C), Split(C, p, k, a, b), CutAtPlan(PlanOf(C), p, k, RoleOf(a), RoleOf(b));
    PlanAt(C, p);
    SplitCells(C, p, k, a, b);
    forall q ensures q in D <==> q in v { assert q in C <==> q in u; }
    hide Split;
    forall q | q in D ensures v[q] == CellOf(D[q]) {
      if q != p && q != p + k { assert q in u && u[q] == CellOf(C[q]); }
    }
    PlanIs(D, v);
  }

  lemma SplitCells(C: Chunks, p: int, k: nat, a: Kind, b: Kind)
    requires p in C && 0 < k < C[p].n
    ensures var D := Split(C, p, k, a, b);
      && D.Keys == C.Keys + {p, p + k} && CellOf(D[p]) == Cell(k, RoleOf(a)) && CellOf(D[p + k]) == Cell(C[p].n - k, RoleOf(b))
      && forall q | q in C && q != p && q != p + k :: q in D && CellOf(D[q]) == CellOf(C[q])
  {}

  lemma PlanStretch(C: Chunks, p: int, k: nat, t: nat)
    requires CanStretch(C, p, k, t)
    ensures PlanOf(Stretch(C, p, k, t)) == GrowPlan(PlanOf(C), p, k)
  {
    PlanAt(C, p);
    PlanAt(C, p + C[p].n);
  }

  lemma ShrinkIs(C: Chunks, p: int, nb: nat)
    requires p in C && 8 <= nb
    ensures 8 * C[p].n < nb + MIN_CHUNK_SIZE ==> ShrinkPlan(PlanOf(C), p, nb) == PlanOf(C)
    ensures 8 * C[p].n >= nb + MIN_CHUNK_SIZE ==>
      ShrinkPlan(PlanOf(C), p, nb) == FreePlan(PlanOf(Split(C, p, nb / 8, InUse, InUse)), p + nb / 8)
  {
    PlanAt(C, p);
    hide FreePlan, PlanOf;
    if 8 * C[p].n >= nb + MIN_CHUNK_SIZE { PlanSplit(C, p, nb / 8, InUse, InUse); }
  }

  /** The merge of a free. */
  lemma PlanMerge(C: Chunks, end: int, x: int, lo: int, fw: bool, n: nat, k: Kind)
    requires Tiled(C, end) && FreeShape(C, x, lo, fw) && k == ShapeKind(C, x, lo, fw) && n == ShapeSize(C, x, lo, fw)
    ensures PlanOf(Merge(C, lo, n, k)) == FreeFrom(PlanOf(C), x, lo)
  {
    var next := x + C[x].n;
    PlanAt(C, x);
    PlanAt(C, lo);
    PlanAt(C, next);
    assert ChunkOK(C, end, x) && ChunkOK(C, end, lo);
    ShapeIsGone(C, end, x, lo, fw, n, k);
    PlanGone(C, Merge(C, lo, n, k), lo, ShapeSet(C, x, lo, fw), n, k);
  }

  lemma PlanGone(C: Chunks, D: Chunks, lo: int, P: set<int>, n: nat, k: Kind)
    requires ShapeGone(C, D, lo, P) && lo in P && lo in D && D[lo].n == n && D[lo].kind == k
    ensures PlanOf(D) == (PlanOf(C) - P)[lo := Cell(n, RoleOf(k))]
  {
    var v := (PlanOf(C) - P)[lo := Cell(n, RoleOf(k))];
    forall a ensures a in D <==> a in v {}
    forall a | a in D ensures v[a] == CellOf(D[a]) {}
    PlanIs(D, v);
  }

  /** Where a free of x starts, read off the pin and the foot. */
  lemma StartIs(C: Chunks, end: int, x: int, lo: int)
    requires Tiled(C, end) && x in C && lo in C && C[x].kind == InUse
    requires if lo == x then C[x].pin else lo + C[lo].n == x && Free(C[lo]) && lo < x
    ensures Start(PlanOf(C), x) == lo
  {
    PlanAt(C, lo);
    forall y | FreeBefore(PlanOf(C), x, y) ensures y == lo && lo != x {
      PlanAt(C, y);
      assert ChunkOK(C, end, y) && ChunkOK(C, end, x) && Apart(C, y, x) && Apart(C, y, lo);
    }
    if lo != x { assert FreeBefore(PlanOf(C), x, lo); }
  }

  // ----- Carving -----

  lemma CarvedWhole(C: Chunks, p: int, nb: nat, rest: Role)
    requires p in C && 0 < C[p].n && 8 * C[p].n < nb + MIN_CHUNK_SIZE
    ensures PlanOf(Retake(C, p, InUse)) == CarvedPlan(PlanOf(C), p, nb, rest)
  {
    PlanAt(C, p);
    PlanRetake(C, p);
  }

  lemma CarvedToBin(C: Chunks, p: int, nb: nat, k: Kind)
    requires p in C && 8 <= nb && nb + MIN_CHUNK_SIZE <= 8 * C[p].n && RoleOf(k) == Listed
    ensures var D, r := Split(C, p, nb / 8, InUse, Loose), p + nb / 8;
      r in D && PlanOf(Rekind(D, r, k)) == CarvedPlan(PlanOf(C), p, nb, Listed)
  {
    PlanAt(C, p);
    PlanSplit(C, p, nb / 8, InUse, Loose);
    PlanRekind(Split(C, p, nb / 8, InUse, Loose), p + nb / 8, k);
  }

  lemma CarvedToDv(C: Chunks, end: int, p: int, nb: nat, dv: int, dvsize: int)
    requires Tiled(C, end) && DvOK(C, dv, dvsize) && p in C && C[p].kind == Loose && 8 <= nb && nb + MIN_CHUNK_SIZE <= 8 * C[p].n
    ensures var D, r := Split(C, p, nb / 8, InUse, Loose), p + nb / 8;
      && r in D && (dvsize != 0 ==> dv in D && dv != r)
      && PlanOf(Rekind(if dvsize == 0 then D else Rekind(D, dv, Small), r, Dv)) == CarvedPlan(PlanOf(C), p, nb, Victim)
  {
    DvApart(C, end, p, nb / 8, dv, dvsize);
    RetiredIs(C, dv, dvsize, p);
    CarvedCells(C, p, nb, dv, dvsize);
  }

  lemma DvApart(C: Chunks, end: int, p: int, k: nat, dv: int, dvsize: int)
    requires Tiled(C, end) && DvOK(C, dv, dvsize) && p in C && C[p].kind == Loose && 0 < k < C[p].n
    ensures dvsize != 0 ==> dv in C && dv != p && dv != p + k
  {
    if dvsize != 0 { assert ChunkOK(C, end, dv) && Apart(C, p, dv); }
  }

  lemma CarvedCells(C: Chunks, p: int, nb: nat, dv: int, dvsize: int)
    requires p in C && 8 <= nb && nb + MIN_CHUNK_SIZE <= 8 * C[p].n && (dvsize != 0 ==> dv in C && dv != p && dv != p + nb / 8)
    requires Retired(PlanOf(C), p) == if dvsize == 0 then PlanOf(C) else PlanOf(C)[dv := Cell(C[dv].n, Listed)]
    ensures var D, r := Split(C, p, nb / 8, InUse, Loose), p + nb / 8;
      && r in D && (dvsize != 0 ==> dv in D && dv != r)
      && PlanOf(Rekind(if dvsize == 0 then D else Rekind(D, dv, Small), r, Dv)) == CarvedPlan(PlanOf(C), p, nb, Victim)
  {
    var k, v := nb / 8, PlanOf(C);
    var D, r := Split(C, p, k, InUse, Loose), p + k;
    CarvedIs(C, p, nb, Victim);
    SplitPlan(C, p, k);
    hide *;
    CutVictim(v, p, k);
    if dvsize == 0 {
      PlanRekind(D, r, Dv);
    } else {
      RekindTwice(D, dv, r);
      CutRetired(v, p, k, dv, Cell(C[dv].n, Listed));
    }
  }

  lemma CarvedIs(C: Chunks, p: int, nb: nat, rest: Role)
    requires p in C && nb + MIN_CHUNK_SIZE <= 8 * C[p].n
    ensures CarvedPlan(PlanOf(C), p, nb, rest) ==
      CutAtPlan(if rest == Victim then Retired(PlanOf(C), p) else PlanOf(C), p, nb / 8, Used, rest)
  {
    PlanAt(C, p);
  }

  lemma SplitPlan(C: Chunks, p: int, k: nat)
    requires p in C && 0 < k < C[p].n
    ensures var D := Split(C, p, k, InUse, Loose);
      && PlanOf(D) == CutAtPlan(PlanOf(C), p, k, Used, Listed) && RoleOf(Dv) == Victim && On(PlanOf(C), p).n == C[p].n
      && p + k in D && D[p + k].n == C[p].n - k
      && forall q | q in C && q != p && q != p + k :: q in D && D[q].n == C[q].n
  {
    PlanAt(C, p);
    PlanSplit(C, p, k, InUse, Loose);
    SplitCells(C, p, k, InUse, Loose);
    hide Split, PlanOf, CutAtPlan;
  }

  lemma RekindTwice(D: Chunks, d: int, r: int)
    requires d in D && r in D && d != r
    ensures r in Rekind(D, d, Small)
    ensures PlanOf(Rekind(Rekind(D, d, Small), r, Dv)) == PlanOf(D)[d := Cell(D[d].n, Listed)][r := Cell(D[r].n, Victim)]
  {
    PlanRekind(D, d, Small);
    PlanRekind(Rekind(D, d, Small), r, Dv);
    hide PlanOf;
  }

  lemma CutVictim(v: Plan, p: int, k: nat)
    requires k <= On(v, p).n
    ensures CutAtPlan(v, p, k, Used, Listed)[p + k := Cell(On(v, p).n - k, Victim)] == CutAtPlan(v, p, k, Used, Victim)
  {}

  /** Cutting and retiring do not meet. */
  lemma CutRetired(v: Plan, p: int, k: nat, d: int, c: Cell)
    requires d != p && d != p + k && k <= On(v, p).n
    ensures CutAtPlan(v, p, k, Used, Listed)[d := c][p + k := Cell(On(v, p).n - k, Victim)] == CutAtPlan(v[d := c], p, k, Used, Victim)
  {}

  lemma RetiredIs(C: Chunks, dv: int, dvsize: int, p: int)
    requires DvOK(C, dv, dvsize) && p in C && C[p].kind != Dv
    ensures Retired(PlanOf(C), p) == if dvsize == 0 then PlanOf(C) else PlanOf(C)[dv := Cell(C[dv].n, Listed)]
  {
    var v, w := PlanOf(C), Retired(PlanOf(C), p);
    var u := if dvsize == 0 then v else v[dv := Cell(C[dv].n, Listed)];
    forall a ensures a in w <==> a in u {}
    forall a | a in w ensures w[a] == u[a] {}
  }

  // ----- What malloc takes -----

  lemma MallocFromBin(C: Chunks, p: int, nb: nat)
    requires p in C && Binned(C[p])
    ensures MallocPlan(PlanOf(C), p, nb) == CarvedPlan(PlanOf(C), p, nb, if nb < MIN_LARGE_SIZE then Victim else Listed)
  {
    PlanAt(C, p);
  }

  lemma MallocFromDv(C: Chunks, dv: int, dvsize: int, nb: nat)
    requires DvOK(C, dv, dvsize) && dvsize > 0 && 8 <= nb <= dvsize
    ensures dvsize < nb + MIN_CHUNK_SIZE ==> PlanOf(Retake(C, dv, InUse)) == MallocPlan(PlanOf(C), dv, nb)
    ensures nb + MIN_CHUNK_SIZE <= dvsize ==> PlanOf(Split(C, dv, nb / 8, InUse, Dv)) == MallocPlan(PlanOf(C), dv, nb)
  {
    PlanAt(C, dv);
    if dvsize < nb + MIN_CHUNK_SIZE {
      CarvedWhole(C, dv, nb, Victim);
    } else {
      PlanSplit(C, dv, nb / 8, InUse, Dv);
      OnlyVictim(C, dv);
    }
  }

  lemma OnlyVictim(C: Chunks, dv: int)
    requires dv in C && forall a | a in C && C[a].kind == Dv :: a == dv
    ensures Retired(PlanOf(C), dv) == PlanOf(C)
  {
    var v, w := PlanOf(C), Retired(PlanOf(C), dv);
    forall a ensures a in w <==> a in v {}
    forall a | a in w ensures w[a] == v[a] {}
  }

  lemma MallocFromTop(C: Chunks, top: int, nb: nat)
    requires top in C && C[top].kind == Top && 8 <= nb < 8 * C[top].n && nb % 8 == 0
    ensures PlanOf(Split(C, top, nb / 8, InUse, Top)) == MallocPlan(PlanOf(C), top, nb)
  {
    PlanAt(C, top);
    PlanSplit(C, top, nb / 8, InUse, Top);
  }

  // ----- The registers -----

  /** dv and top are what the plan says they are. */
  ghost predicate Names(v: Plan, dv: int, dvsize: int, top: int, topsize: int) {
    && (forall a | a in v :: v[a].role == Victim <==> dvsize != 0 && a == dv)
    && (forall a | a in v :: v[a].role == Remnant <==> a == top)
    && (if dvsize == 0 then dv == 0 else dv in v && 8 * v[dv].n == dvsize)
    && top in v && 8 * v[top].n == topsize
  }

  lemma PlanNames(C: Chunks, end: int, dv: int, dvsize: int, top: int, topsize: int)
    requires Tiled(C, end) && DvOK(C, dv, dvsize) && TopOK(C, top, topsize)
    ensures Names(PlanOf(C), dv, dvsize, top, topsize)
  {
    var v := PlanOf(C);
    forall a | a in v ensures (v[a].role == Victim <==> dvsize != 0 && a == dv) && (v[a].role == Remnant <==> a == top) {
      TopUnique(C, end, a, top);
    }
  }

  /** Only one register file fits a plan. */
  lemma NamesUnique(v: Plan, dv: int, dvsize: int, top: int, topsize: int, dv': int, dvsize': int, top': int, topsize': int)
    requires Names(v, dv, dvsize, top, topsize) && Names(v, dv', dvsize', top', topsize')
    ensures dv == dv' && dvsize == dvsize' && top == top' && topsize == topsize'
  {
    assert v[top].role == Remnant;
    assert dvsize != 0 ==> v[dv].role == Victim;
    assert dvsize' != 0 ==> v[dv'].role == Victim;
  }

  lemma StartCases(C: Chunks, end: int, x: int)
    requires Tiled(C, end) && x in C && x > 0 && C[x].kind == InUse
    ensures var lo := Start(PlanOf(C), x);
      lo in C && lo <= x && (if lo == x then C[x].pin else lo + C[lo].n == x && Free(C[lo]) && C[lo].kind != Top)
  {
    var r := FindPrev(C, end, 0, x);
    assert ChunkOK(C, end, r) && ChunkOK(C, end, x) && ChunkOK(C, end, 0);
    StartIs(C, end, x, if C[x].pin then x else r);
  }

  /** The registers after a free of x, n words long, when its range starts at lo: a block that ends
      at top becomes part of top, and takes with it a dv that ends at the block; any other block
      leaves top alone. A block that touches dv becomes part of dv, and any other leaves dv
      alone. */
  function FreedDv(v: Plan, x: int, lo: int, dv: int, dvsize: int, top: int): (int, int) {
    var next := x + On(v, x).n;
    if dvsize == 0 || (next != dv && lo != dv) then (dv, dvsize)
    else if next == top then (0, 0)
    else (lo, 8 * FreedSize(v, x, lo))
  }

  function FreedTop(v: Plan, x: int, lo: int, top: int, topsize: int): (int, int) {
    if x + On(v, x).n == top then (lo, topsize + 8 * (top - lo)) else (top, topsize)
  }

  /** x is a block of the plan, lo and next are the chunks around it, and nothing overlaps. */
  ghost predicate Around(v: Plan, x: int, lo: int) {
    && x in v && v[x].role == Used && v[x].n > 0 && x + v[x].n in v && lo in v
    && (lo == x || (lo < x && v[lo].role in {Listed, Victim}))
  }

  lemma IsAround(C: Chunks, end: int, x: int)
    requires Tiled(C, end) && x in C && x > 0 && C[x].kind == InUse
    ensures Around(PlanOf(C), x, Start(PlanOf(C), x))
  {
    StartCases(C, end, x);
    assert ChunkOK(C, end, x);
  }

  lemma FreeNames(v: Plan, x: int, lo: int, dv: int, dvsize: int, top: int, topsize: int)
    requires Names(v, dv, dvsize, top, topsize) && Around(v, x, lo)
    ensures var d, t := FreedDv(v, x, lo, dv, dvsize, top), FreedTop(v, x, lo, top, topsize);
      Names(FreeFrom(v, x, lo), d.0, d.1, t.0, t.1)
  {
    var next, w := x + v[x].n, FreeFrom(v, x, lo);
    var gone := {x, lo} + if JoinsNext(v, x) then {next} else {};
    assert forall a :: a in w <==> a == lo || (a in v && a !in gone);
    assert w[lo] == Cell(FreedSize(v, x, lo), FreedRole(v, x, lo));
    assert forall a | a in w && a != lo :: w[a] == v[a];
  }

  lemma FreeRegisters(C: Chunks, D: Chunks, end: int, x: int, dv: int, dvsize: int, top: int, topsize: int,
                      dv': int, dvsize': int, top': int, topsize': int)
    requires Tiled(C, end) && DvOK(C, dv, dvsize) && TopOK(C, top, topsize) && x in C && x > 0 && C[x].kind == InUse
    requires Tiled(D, end) && DvOK(D, dv', dvsize') && TopOK(D, top', topsize') && PlanOf(D) == FreePlan(PlanOf(C), x)
    ensures var v, lo := PlanOf(C), Start(PlanOf(C), x);
      (dv', dvsize') == FreedDv(v, x, lo, dv, dvsize, top) && (top', topsize') == FreedTop(v, x, lo, top, topsize)
  {
    var v, lo := PlanOf(C), Start(PlanOf(C), x);
    var d, t := FreedDv(v, x, lo, dv, dvsize, top), FreedTop(v, x, lo, top, topsize);
    hide *;
    FreePlanIs(v, x);
    PlanNames(C, end, dv, dvsize, top, topsize);
    PlanNames(D, end, dv', dvsize', top', topsize');
    IsAround(C, end, x);
    FreeNames(v, x, lo, dv, dvsize, top, topsize);
    NamesUnique(PlanOf(D), dv', dvsize', top', topsize', d.0, d.1, t.0, t.1);
  }

  lemma FreePlanIs(v: Plan, x: int)
    ensures FreePlan(v, x) == FreeFrom(v, x, Start(v, x))
  {}
}
