/** Splits as functions of the parent: what one split takes, and what any sequence of them leaves. */
module Splits {
  import opened Products
  import opened TeamMaps

  datatype Option<T> = None | Some(value: T)

  /** What a team declares and what it maps. */
  datatype Shape = Shape(nranks: int, members: seq<int>)

  datatype Split =
    | Stride(start: int, stride: int, size: int)   // shmemc_team_split_strided
    | XAxis(xrange: int)                           // the first team of shmemc_team_split_2d
    | YAxis(xrange: int)                           // the second

  ghost predicate Sound(s: Shape) { s.nranks == |s.members| || s.members == [] }

  /** The last rank of me, or -1. */
  function RankIn(s: seq<int>, me: int): int {
    if s == [] then -1 else if s[|s| - 1] == me then |s| - 1 else RankIn(s[..|s| - 1], me)
  }

  lemma {:induction false} RankInExact(s: seq<int>, me: int)
    ensures RankIn(s, me) == -1 <==> me !in s
    ensures me in s ==> LastAt(s, RankIn(s, me), me)
  {
    if s != [] && s[|s| - 1] != me {
      var r := s[..|s| - 1];
      assert s == r + [s[|s| - 1]];
      RankInExact(r, me);
    }
  }

  lemma RankIsIn(fwd: map<int, int>, rev: map<int, int>, s: seq<int>, me: int)
    requires MapsTo(fwd, rev, s)
    ensures RankIn(s, me) == RankOf(rev, me)
  {
    RankInExact(s, me);
    Reverse(fwd, rev, s, me);
    if me in rev { LastUnique(s, rev[me], RankIn(s, me), me); }
  }

  function Width(nranks: int, xrange: int): int { if xrange > nranks then nranks else xrange }

  /** The widths that split_2d can come to. */
  predicate IsWidth(nranks: int, xr: int) { if nranks < 0 then xr == nranks else 0 < xr <= nranks }

  function RowTeam(s: Shape, xr: int, rank: int): Shape
    requires xr != 0
  {
    Shape(RowSize(s.nranks, xr, Div(rank, xr)), if xr > 0 then Row(s.members, xr, Div(rank, xr)) else [])
  }

  function ColumnTeam(s: Shape, xr: int, rank: int): Shape
    requires xr != 0
  {
    Shape(ColumnSize(s.nranks, xr, Mod(rank, xr)), if xr > 0 then Column(s.members, xr, Mod(rank, xr)) else [])
  }

  ghost predicate InsideAll(n: nat, start: int, stride: int, size: int) {
    forall i | 0 <= i < size :: InParent(n, start, stride, i)
  }

  /** split_2d neither divides by zero nor reads a rank that is not mapped. */
  predicate Grids(s: Shape, xrange: int) { xrange > 0 && s.nranks != 0 && s.nranks <= |s.members| }

  /** The team that PE me gets from a split, if it gets one. */
  ghost function Taken(s: Shape, split: Split, me: int): Option<Shape> {
    match split
    case Stride(start, stride, size) =>
      if InsideAll(|s.members|, start, stride, size)
      then Some(Shape(size, Strided(s.members, start, stride, if size < 0 then 0 else size))) else None
    case XAxis(xrange) =>
      if Grids(s, xrange) then Some(RowTeam(s, Width(s.nranks, xrange), RankIn(s.members, me))) else None
    case YAxis(xrange) =>
      if Grids(s, xrange) then Some(ColumnTeam(s, Width(s.nranks, xrange), RankIn(s.members, me))) else None
  }

  // ----- Which reads are safe, and which sizes are true -----

  ghost predicate RowMapped(s: Shape, xr: int, rank: int)
    requires xr != 0
  {
    forall i | 0 <= i < s.nranks && OnRow(xr, Div(rank, xr), i) :: i < |s.members|
  }

  ghost predicate ColumnMapped(s: Shape, xr: int, rank: int)
    requires xr != 0
  {
    forall i | 0 <= i < s.nranks && OnColumn(xr, Mod(rank, xr), i) :: i < |s.members|
  }

  /** In a sound team, the two loops of split_2d read only mapped ranks exactly when the team maps
      what it declares; then both children are sound, and both sizes are true exactly for a PE
      that has a rank. */
  lemma SplitFacts(s: Shape, xr: int, rank: int)
    requires Sound(s) && IsWidth(s.nranks, xr) && -1 <= rank < |s.members|
    ensures RowMapped(s, xr, rank) && ColumnMapped(s, xr, rank) <==> s.nranks <= |s.members|
    ensures s.nranks <= |s.members| ==> var x, y := RowTeam(s, xr, rank), ColumnTeam(s, xr, rank);
      && Sound(x) && Sound(y)
      && (x.nranks == |x.members| && y.nranks == |y.members| <==> rank >= 0)
  {
    var x, y := RowTeam(s, xr, rank), ColumnTeam(s, xr, rank);
    if s.nranks < 0 {
      NegativeSizes(s.nranks, Div(rank, xr));
    } else if s.nranks > |s.members| {
      OutsideReads(xr);
      assert OnRow(xr, Div(rank, xr), 0) || OnColumn(xr, Mod(rank, xr), 0);
    } else if rank >= 0 {
      TruncSame(rank, xr);
      SizesExact(s.members, xr, rank);
    } else {
      SizesWrong(s.members, xr);
    }
  }

  lemma NegativeSizes(n: int, y: int)
    requires n < 0
    ensures RowSize(n, n, y) == n
  {
    assert Div(n, n) == 1;
  }

  /** Index 0 is on the row or on the column of a PE without a rank. */
  lemma OutsideReads(xr: int)
    requires xr > 0
    ensures OnRow(xr, Div(-1, xr), 0) || OnColumn(xr, Mod(-1, xr), 0)
  {
    TruncSame(0, xr);
    if xr == 1 {
      assert Div(-1, xr) == -1;
    } else {
      Quotient(1, xr, 0, 1);
      Quotient(0, xr, 0, 0);
    }
  }
}
