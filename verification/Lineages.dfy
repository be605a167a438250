/** Teams reached by any sequence of splits, and the agreement of the PEs that make them. */
module Lineages {
  import opened Products
  import opened TeamMaps
  import opened Splits

  /** The team PE me has after the splits, each of the team before, if it gets that far. */
  ghost function Lineage(root: Shape, splits: seq<Split>, me: int): Option<Shape>
    decreases |splits|
  {
    if splits == [] then Some(root)
    else match Lineage(root, splits[..|splits| - 1], me)
      case None => None
      case Some(t) => Taken(t, splits[|splits| - 1], me)
  }

  /** A strided split that does not move on. */
  predicate Standing(split: Split) { split.Stride? && split.stride == 0 }
  ghost predicate NoneStanding(splits: seq<Split>) { forall k | 0 <= k < |splits| :: !Standing(splits[k]) }

  ghost predicate IsStrided(s: seq<int>, P: seq<int>, a: int, b: int) {
    InsideAll(|P|, a, b, |s|) && s == Strided(P, a, b, |s|)
  }

  // ----- One split -----

  lemma RowStrided(P: seq<int>, xr: nat, y: int)
    ensures IsStrided(Row(P, xr, y), P, y * xr, 1)
  {
    var s := Row(P, xr, y);
    forall i | 0 <= i < |s| ensures InParent(|P|, y * xr, 1, i) {}
  }

  lemma ColumnStrided(P: seq<int>, xr: nat, x: int)
    ensures IsStrided(Column(P, xr, x), P, x, xr)
  {
    var s := Column(P, xr, x);
    forall i | 0 <= i < |s| ensures InParent(|P|, x, xr, i) { ColumnIndex(xr, x, i, |P|); }
  }

  /** What any split takes is every b-th PE of the parent from a on; b is zero only when the split
      asks for that. */
  lemma TakenStrided(s: Shape, split: Split, me: int) returns (a: int, b: int)
    requires Taken(s, split, me).Some?
    ensures IsStrided(Taken(s, split, me).value.members, s.members, a, b)
    ensures b == 0 <==> Standing(split)
  {
    hide Row, Column;
    var P, rank := s.members, RankIn(s.members, me);
    match split {
      case Stride(start, stride, size) =>
        a, b := start, stride;
      case XAxis(xrange) =>
        var xr := Width(s.nranks, xrange);
        a, b := 0, 1;
        if xr > 0 {
          RowStrided(P, xr, Div(rank, xr));
          a := Div(rank, xr) * xr;
        }
      case YAxis(xrange) =>
        var xr := Width(s.nranks, xrange);
        a, b := 0, 1;
        if xr > 0 {
          ColumnStrided(P, xr, Mod(rank, xr));
          a, b := Mod(rank, xr), xr;
        }
    }
  }

  lemma Affine(a: int, b: int, c: int, d: int, i: int)
    ensures a + (c + i * d) * b == (a + c * b) + i * (d * b)
  {
    assert i * d * b == i * (d * b);
  }

  lemma StridesCompose(s: seq<int>, P: seq<int>, R: seq<int>, a: int, b: int, c: int, d: int)
    requires IsStrided(P, R, a, b) && IsStrided(s, P, c, d)
    ensures IsStrided(s, R, a + c * b, d * b)
  {
    var e, f := a + c * b, d * b;
    forall i | 0 <= i < |s| ensures InParent(|R|, e, f, i) {
      assert InParent(|P|, c, d, i) && InParent(|R|, a, b, c + i * d);
      Affine(a, b, c, d, i);
    }
    var u := Strided(R, e, f, |s|);
    forall i | 0 <= i < |s| ensures s[i] == u[i] {
      assert InParent(|P|, c, d, i) && InParent(|R|, a, b, c + i * d);
      Affine(a, b, c, d, i);
      assert s[i] == StridedAt(P, c, d, |s|, i) && P[c + i * d] == StridedAt(R, a, b, |P|, c + i * d);
    }
  }

  lemma ZeroProduct(a: int, b: int)
    ensures a * b == 0 <==> a == 0 || b == 0
  {
    if a != 0 && b != 0 { NonZero(a, b); }
  }

  // ----- Any sequence of splits -----

  lemma LastStanding(splits: seq<Split>)
    requires splits != []
    ensures NoneStanding(splits) <==> NoneStanding(splits[..|splits| - 1]) && !Standing(splits[|splits| - 1])
  {
    var before := splits[..|splits| - 1];
    if NoneStanding(splits) {
      forall k | 0 <= k < |before| ensures !Standing(before[k]) { assert before[k] == splits[k]; }
    } else {
      var k :| 0 <= k < |splits| && Standing(splits[k]);
      if k < |before| { assert before[k] == splits[k]; }
    }
  }

  /** Whatever the splits, strided and two-dimensional in any order, the team they leave takes
      every b-th PE of the root from some a on; b is zero exactly when a split on the way had
      stride zero. */
  lemma {:induction false} Progression(root: Shape, splits: seq<Split>, me: int) returns (a: int, b: int)
    requires Lineage(root, splits, me).Some?
    ensures IsStrided(Lineage(root, splits, me).value.members, root.members, a, b)
    ensures b == 0 <==> !NoneStanding(splits)
    decreases |splits|
  {
    if splits == [] {
      a, b := 0, 1;
      forall i | 0 <= i < |root.members| ensures InParent(|root.members|, a, b, i) {}
      assert root.members == Strided(root.members, a, b, |root.members|);
    } else {
      var before, last := splits[..|splits| - 1], splits[|splits| - 1];
      var t := Lineage(root, before, me).value;
      var a0, b0 := Progression(root, before, me);
      hide Taken, IsStrided, NoneStanding, Standing;
      var c, d := TakenStrided(t, last, me);
      StridesCompose(Taken(t, last, me).value.members, t.members, root.members, a0, b0, c, d);
      ZeroProduct(d, b0);
      LastStanding(splits);
      a, b := a0 + c * b0, d * b0;
    }
  }

  /** The two maps of a team reached from a root without repetition undo each other exactly when
      the team has at most one PE or no split on the way had stride zero. */
  lemma LineageInverse(root: Shape, splits: seq<Split>, me: int, fwd: map<int, int>, rev: map<int, int>)
    requires Distinct(root.members) && Lineage(root, splits, me).Some?
    requires MapsTo(fwd, rev, Lineage(root, splits, me).value.members)
    ensures Inverse(fwd, rev) <==> |Lineage(root, splits, me).value.members| <= 1 || NoneStanding(splits)
  {
    var t := Lineage(root, splits, me).value;
    var a, b := Progression(root, splits, me);
    InverseExact(fwd, rev, t.members);
    StridedDistinct(root.members, a, b, |t.members|);
  }

  /** When the size that a split declares is true. */
  predicate SizeHolds(s: Shape, split: Split, me: int) {
    match split
    case Stride(_, _, size) => size >= 0
    case XAxis(xrange) => s.nranks > 0 && (me in s.members || Width(s.nranks, xrange) > 1)
    case YAxis(xrange) => s.nranks > 0 && (me in s.members || Width(s.nranks, xrange) == 1)
  }

  lemma SizeExact(s: Shape, split: Split, me: int)
    requires Sound(s) && Taken(s, split, me).Some?
    ensures var t := Taken(s, split, me).value; Sound(t) && (t.nranks == |t.members| <==> SizeHolds(s, split, me))
  {
    RankInExact(s.members, me);
    if !split.Stride? {
      var xr, rank := Width(s.nranks, split.xrange), RankIn(s.members, me);
      SplitFacts(s, xr, rank);
      if s.nranks < 0 {
        NegativeSizes(s.nranks, Div(rank, xr));
        NegativeColumns(s.nranks, Mod(rank, xr));
      } else if rank < 0 {
        SizesWrong(s.members, xr);
      }
    }
  }

  lemma NegativeColumns(n: int, x: int)
    requires n < 0
    ensures ColumnSize(n, n, x) > 0
  {
    assert Div(n, n) == 1 && Mod(n, n) == 0;
    MulLeq(2, 2, -n);
    assert 2 * -n <= -(n + n - 1);
    DivAtLeast(-(n + n - 1), -n);
  }

  lemma DivAtLeast(a: nat, d: nat)
    requires d > 0 && 2 * d <= a
    ensures a / d > 0
  {
    assert a == a / d * d + a % d;
  }

  /** Every team from a sound root is sound, and declares its true size exactly when the last
      split lets it. */
  lemma {:induction false} LineageSize(root: Shape, splits: seq<Split>, me: int)
    requires Sound(root) && Lineage(root, splits, me).Some?
    ensures Sound(Lineage(root, splits, me).value)
    ensures splits != [] ==> var t := Lineage(root, splits, me).value; var s := Lineage(root, splits[..|splits| - 1], me);
      s.Some? && (t.nranks == |t.members| <==> SizeHolds(s.value, splits[|splits| - 1], me))
    decreases |splits|
  {
    if splits != [] {
      hide Taken, SizeHolds, Sound;
      LineageSize(root, splits[..|splits| - 1], me);
      SizeExact(Lineage(root, splits[..|splits| - 1], me).value, splits[|splits| - 1], me);
    }
  }

  // ----- Agreement -----

  lemma Fewer(s: seq<int>, P: seq<int>, a: int, b: int)
    requires IsStrided(s, P, a, b)
    ensures forall g | g in s :: g in P
    ensures b == 0 ==> forall g, h | g in s && h in s :: g == h
  {
    forall i | 0 <= i < |s| ensures s[i] in P && (b == 0 ==> s[i] == s[0]) {
      assert InParent(|P|, a, b, i) && s[i] == StridedAt(P, a, b, |s|, i);
      assert InParent(|P|, a, b, 0) && s[0] == StridedAt(P, a, b, |s|, 0);
    }
  }

  /** In a team without repetition, whoever is in the row of me builds the same row, and whoever
      is in the column of me the same column. */
  lemma SameTaken(s: Shape, split: Split, me: int, you: int)
    requires Distinct(s.members) && Taken(s, split, me).Some? && you in Taken(s, split, me).value.members
    ensures Taken(s, split, you) == Taken(s, split, me)
  {
    hide Row, Column;
    if !split.Stride? {
      var xr, rank := Width(s.nranks, split.xrange), RankIn(s.members, me);
      if split.XAxis? {
        RowRankOf(s.members, xr, Div(rank, xr), you);
      } else {
        ColumnRankOf(s.members, xr, Mod(rank, xr), you);
      }
    }
  }

  lemma RowRankOf(P: seq<int>, xr: nat, y: int, you: int)
    requires Distinct(P) && xr > 0 && you in Row(P, xr, y)
    ensures Div(RankIn(P, you), xr) == y
  {
    hide Row;
    var k: nat :| k < |Row(P, xr, y)| && Row(P, xr, y)[k] == you;
    GridMembers(P, xr, y, 0, k);
    RankInExact(P, you);
    SameIndex(P, y * xr + k, RankIn(P, you));
    TruncSame(y * xr + k, xr);
  }

  lemma ColumnRankOf(P: seq<int>, xr: nat, x: int, you: int)
    requires Distinct(P) && xr > 0 && you in Column(P, xr, x)
    ensures Mod(RankIn(P, you), xr) == x
  {
    hide Column;
    var k: nat :| k < |Column(P, xr, x)| && Column(P, xr, x)[k] == you;
    GridMembers(P, xr, 0, x, k);
    RankInExact(P, you);
    SameIndex(P, x + k * xr, RankIn(P, you));
    TruncSame(x + k * xr, xr);
  }

  /** PEs agree without hearing from each other: whenever PE me has a team by some splits, every
      PE you in it gets, by the same splits, a team with the same members in the same order and
      the same declared size. PE me need not be in the team itself unless a split has stride
      zero. */
  lemma {:induction false} Coherent(root: Shape, splits: seq<Split>, me: int, you: int)
    requires Distinct(root.members) && Lineage(root, splits, me).Some?
    requires you in Lineage(root, splits, me).value.members
    requires me in Lineage(root, splits, me).value.members || NoneStanding(splits)
    ensures Lineage(root, splits, you) == Lineage(root, splits, me)
    decreases |splits|
  {
    if splits != [] && me != you {
      var before, last := splits[..|splits| - 1], splits[|splits| - 1];
      var s, t := Lineage(root, before, me).value, Lineage(root, splits, me).value;
      hide Taken, IsStrided, NoneStanding, Standing;
      var c, d := TakenStrided(s, last, me);
      Fewer(t.members, s.members, c, d);
      LastStanding(splits);
      Coherent(root, before, me, you);
      MovesOn(root, splits, me, you);
      BeforeDistinct(root, before, me);
      SameTaken(s, last, me, you);
    }
  }

  lemma MovesOn(root: Shape, splits: seq<Split>, me: int, you: int)
    requires Lineage(root, splits, me).Some? && me != you && you in Lineage(root, splits, me).value.members
    requires me in Lineage(root, splits, me).value.members || NoneStanding(splits)
    ensures NoneStanding(splits)
  {
    hide IsStrided, NoneStanding;
    var a, b := Progression(root, splits, me);
    Fewer(Lineage(root, splits, me).value.members, root.members, a, b);
  }

  lemma BeforeDistinct(root: Shape, splits: seq<Split>, me: int)
    requires Distinct(root.members) && Lineage(root, splits, me).Some? && NoneStanding(splits)
    ensures Distinct(Lineage(root, splits, me).value.members)
  {
    var a, b := Progression(root, splits, me);
    StridedDistinct(root.members, a, b, |Lineage(root, splits, me).value.members|);
  }

  // ----- Inputs that fail -----

  /** Stride zero gives a team that has one PE twice, and splitting that with any stride but
      within it still does. */
  lemma Repeated(s: Shape, start: int, me: int)
    requires 0 <= start < |s.members|
    ensures var g := s.members[start]; var twice := Shape(2, [g, g]);
      && Taken(s, Stride(start, 0, 2), me) == Some(twice) && Taken(twice, Stride(0, 1, 2), me) == Some(twice)
      && !Distinct(twice.members)
  {
    var g := s.members[start];
    var twice := Shape(2, [g, g]);
    forall i | 0 <= i < 2 ensures InParent(|s.members|, start, 0, i) && InParent(2, 0, 1, i) {}
    assert Strided(s.members, start, 0, 2) == [g, g];
    assert Strided([g, g], 0, 1, 2) == [g, g];
    assert twice.members[0] == twice.members[1];
  }

  /** A PE outside the parent gets, from a grid one wide, a row that declares one rank and maps
      none; no two-dimensional split of that is safe. */
  lemma Outsider(s: Shape, me: int)
    requires s.nranks == |s.members| > 0 && me !in s.members
    ensures Taken(s, XAxis(1), me) == Some(Shape(1, []))
    ensures forall w :: !Grids(Shape(1, []), w)
  {
    RankInExact(s.members, me);
    RowsAre(s.nranks, 1);
    SizesWrong(s.members, 1);
  }

  /** Size zero gives an empty team, and no two-dimensional split of that is safe. */
  lemma Empty(s: Shape, me: int)
    ensures Taken(s, Stride(0, 1, 0), me) == Some(Shape(0, []))
    ensures forall w :: !Grids(Shape(0, []), w)
  {
    assert Strided(s.members, 0, 1, 0) == [];
  }
}
