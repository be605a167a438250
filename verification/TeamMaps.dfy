/** The maps between team ranks and global PEs, and the parts of a team that a split selects. */
module TeamMaps {
  import opened Products

  // ----- Maps -----

  /** fwd takes rank k to s[k]; rev takes each PE of s to the last rank it has there. */
  ghost predicate MapsTo(fwd: map<int, int>, rev: map<int, int>, s: seq<int>) {
    && (forall k :: k in fwd <==> 0 <= k < |s|)
    && (forall k | 0 <= k < |s| :: fwd[k] == s[k])
    && (forall k | 0 <= k < |s| :: s[k] in rev)
    && (forall g | g in rev :: LastAt(s, rev[g], g))
  }

  ghost predicate LastAt(s: seq<int>, k: int, g: int) {
    0 <= k < |s| && s[k] == g && forall j | k < j < |s| :: s[j] != g
  }

  ghost predicate Distinct(s: seq<int>) { forall i, j | 0 <= i < j < |s| :: s[i] != s[j] }

  /** The two maps undo each other. */
  ghost predicate Inverse(fwd: map<int, int>, rev: map<int, int>) {
    && (forall k | k in fwd :: fwd[k] in rev && rev[fwd[k]] == k)
    && (forall g | g in rev :: rev[g] in fwd && fwd[rev[g]] == g)
  }

  lemma MapsExtend(fwd: map<int, int>, rev: map<int, int>, s: seq<int>, g: int)
    requires MapsTo(fwd, rev, s)
    ensures MapsTo(fwd[|s| := g], rev[g := |s|], s + [g])
  {
    var back := rev[g := |s|];
    forall h | h in back ensures LastAt(s + [g], back[h], h) {
      if h != g { assert LastAt(s, rev[h], h); }
    }
  }

  /** The maps are inverse exactly when no PE is in the team twice. */
  lemma InverseExact(fwd: map<int, int>, rev: map<int, int>, s: seq<int>)
    requires MapsTo(fwd, rev, s)
    ensures Inverse(fwd, rev) <==> Distinct(s)
  {
    if Distinct(s) {
      forall k | k in fwd ensures fwd[k] in rev && rev[fwd[k]] == k { assert LastAt(s, rev[s[k]], s[k]); }
      forall g | g in rev ensures rev[g] in fwd && fwd[rev[g]] == g { assert LastAt(s, rev[g], g); }
    }
    if Inverse(fwd, rev) {
      forall i, j | 0 <= i < j < |s| ensures s[i] != s[j] { assert rev[fwd[i]] == i && rev[fwd[j]] == j; }
    }
  }

  // ----- Translation -----

  /** shmemc_team_translate_pe, given the maps. */
  function Translated(fwd: map<int, int>, rev: map<int, int>, pe: int): int {
    if pe in fwd && fwd[pe] in rev then rev[fwd[pe]] else -1
  }

  /** Going to another team and back, or on to a third, is going there directly. */
  lemma TranslationsCompose(f1: map<int, int>, r1: map<int, int>, f2: map<int, int>, r2: map<int, int>,
                            r3: map<int, int>, pe: int)
    requires Inverse(f1, r1) && Inverse(f2, r2) && -1 !in f2
    ensures var q := Translated(f1, r2, pe);
      && (q != -1 ==> Translated(f2, r1, q) == pe && Translated(f2, r3, q) == Translated(f1, r3, pe))
      && (q != -1 <==> pe in f1 && f1[pe] in r2)
  {
    if pe in f1 && f1[pe] in r2 {
      var g := f1[pe];
      assert r1[g] == pe && r2[g] in f2 && f2[r2[g]] == g;
    }
  }

  /** Any chain of teams: the rank a PE has in the last is the one it has when translated from
      the first, as long as every team on the way has it. */
  lemma {:induction false} ChainTranslates(fs: seq<map<int, int>>, rs: seq<map<int, int>>, pe: int)
    requires |fs| == |rs| > 0 && forall i | 0 <= i < |fs| :: Inverse(fs[i], rs[i]) && -1 !in fs[i]
    requires pe in fs[0] && forall i | 0 <= i < |rs| :: fs[0][pe] in rs[i]
    ensures Along(fs, rs, pe) == Translated(fs[0], rs[|rs| - 1], pe) == rs[|rs| - 1][fs[0][pe]]
    decreases |fs|
  {
    if |fs| > 1 {
      TranslationsCompose(fs[0], rs[0], fs[1], rs[1], rs[|rs| - 1], pe);
      var g := fs[0][pe];
      assert g in rs[1] && fs[1][rs[1][g]] == g;
      ChainTranslates(fs[1..], rs[1..], Translated(fs[0], rs[1], pe));
    } else {
      assert rs[0][fs[0][pe]] == pe;
    }
  }

  /** The rank after translating from team to team along the chain. */
  function Along(fs: seq<map<int, int>>, rs: seq<map<int, int>>, pe: int): int
    requires |fs| == |rs| > 0
    decreases |fs|
  {
    if |fs| == 1 then pe else Along(fs[1..], rs[1..], Translated(fs[0], rs[1], pe))
  }

  // ----- Strided and two-dimensional selections -----

  /** The C operators, which truncate. */
  function Div(a: int, b: int): int
    requires b != 0
  {
    if b < 0 then -DivBy(a, -b) else DivBy(a, b)
  }

  function DivBy(a: int, b: int): int requires b > 0 { if a >= 0 then a / b else -(-a / b) }
  function Mod(a: int, b: int): int requires b != 0 { a - b * Div(a, b) }

  predicate InParent(n: nat, start: int, stride: int, i: int) { 0 <= start + i * stride < n }

  /** Every size-th PE of the parent from start on. */
  function Strided(P: seq<int>, start: int, stride: int, size: nat): seq<int>
    requires forall i | 0 <= i < size :: InParent(|P|, start, stride, i)
  {
    seq(size, i requires 0 <= i < size => StridedAt(P, start, stride, size, i))
  }

  function StridedAt(P: seq<int>, start: int, stride: int, size: nat, k: nat): int
    requires k < size && forall i | 0 <= i < size :: InParent(|P|, start, stride, i)
  {
    assert InParent(|P|, start, stride, k);
    P[start + k * stride]
  }

  lemma StridedStart(P: seq<int>, start: int, stride: int)
    ensures Strided(P, start, stride, 0) == []
  {}

  lemma StridedExtend(P: seq<int>, start: int, stride: int, size: nat)
    requires forall i | 0 <= i < size + 1 :: InParent(|P|, start, stride, i)
    ensures 0 <= start + size * stride < |P|
    ensures Strided(P, start, stride, size + 1) == Strided(P, start, stride, size) + [P[start + size * stride]]
  {
    assert InParent(|P|, start, stride, size);
  }

  lemma StridedMembers(P: seq<int>, start: int, stride: int, size: nat)
    requires forall i | 0 <= i < size :: InParent(|P|, start, stride, i)
    ensures |Strided(P, start, stride, size)| == size
    ensures forall i | 0 <= i < size ::
      0 <= start + i * stride < |P| && Strided(P, start, stride, size)[i] == P[start + i * stride]
  {
    forall i | 0 <= i < size
      ensures 0 <= start + i * stride < |P| && Strided(P, start, stride, size)[i] == P[start + i * stride]
    {
      assert InParent(|P|, start, stride, i);
    }
  }

  lemma Steps(start: int, stride: int, i: int, j: int)
    ensures start + i * stride == start + j * stride <==> stride == 0 || i == j
  {
    assert i * stride - j * stride == (i - j) * stride;
    if stride != 0 && i != j { NonZero(i - j, stride); }
  }

  lemma NonZero(a: int, b: int)
    requires a != 0 && b != 0
    ensures a * b != 0
  {}

  lemma StridedDistinct(P: seq<int>, start: int, stride: int, size: nat)
    requires Distinct(P) && forall i | 0 <= i < size :: InParent(|P|, start, stride, i)
    ensures Distinct(Strided(P, start, stride, size)) <==> stride != 0 || size <= 1
  {
    var s := Strided(P, start, stride, size);
    if stride == 0 && size >= 2 {
      assert InParent(|P|, start, stride, 0) && InParent(|P|, start, stride, 1);
      Steps(start, stride, 0, 1);
      assert s[0] == s[1];
    } else {
      forall i, j | 0 <= i < j < size ensures s[i] != s[j] {
        assert InParent(|P|, start, stride, i) && InParent(|P|, start, stride, j);
        Steps(start, stride, i, j);
      }
    }
  }

  /** Row y of a grid of xr columns: the PEs y * xr up to (y + 1) * xr, or the end. */
  function RowEnd(n: nat, xr: nat, y: nat): nat { if y * xr + xr <= n then y * xr + xr else n }

  function Row(P: seq<int>, xr: nat, y: int): seq<int> {
    if 0 <= y && 0 <= y * xr <= RowEnd(|P|, xr, y) then P[y * xr..RowEnd(|P|, xr, y)] else []
  }

  /** How many of the indices below i are in column x. */
  function InColumn(xr: nat, x: nat, i: nat): nat
    requires x < xr
  {
    if i <= x then 0 else (i - x - 1) / xr + 1
  }

  function Column(P: seq<int>, xr: nat, x: int): seq<int> {
    if 0 <= x < xr then ColumnUpTo(P, xr, x, |P|) else []
  }

  function ColumnUpTo(P: seq<int>, xr: nat, x: nat, i: nat): (s: seq<int>)
    requires x < xr && i <= |P|
    ensures |s| == InColumn(xr, x, i)
  {
    seq(InColumn(xr, x, i), k requires 0 <= k < InColumn(xr, x, i) => ColumnAt(P, xr, x, i, k))
  }

  function ColumnAt(P: seq<int>, xr: nat, x: nat, i: nat, k: nat): int
    requires x < xr && i <= |P| && k < InColumn(xr, x, i)
  {
    ColumnIndex(xr, x, k, i);
    P[x + k * xr]
  }

  lemma ColumnIndex(xr: nat, x: nat, k: nat, i: nat)
    requires x < xr && k < InColumn(xr, x, i)
    ensures 0 <= x + k * xr < i
  {
    var q := (i - x - 1) / xr;
    assert q * xr <= i - x - 1;
    MulLeq(k, q, xr);
    MulLeq(0, k, xr);
  }

  /** Each of the q full rows before index i has one place in column x; the row of i, of which r
      places are before i, has one more when they reach past x. */
  lemma InColumnIs(xr: nat, x: nat, i: nat, q: nat, r: nat)
    requires x < xr && r < xr && i == q * xr + r
    ensures InColumn(xr, x, i) == q + if r > x then 1 else 0
  {
    LessOne(q, xr);
    if r > x {
      MulLeq(0, q, xr);
      Quotient(i - x - 1, xr, q, r - x - 1);
    } else if q > 0 {
      Quotient(i - x - 1, xr, q - 1, xr + r - x - 1);
    }
  }

  /** An index enters its own column and no other. */
  lemma ColumnStep(xr: nat, x: nat, i: nat)
    requires x < xr
    ensures i % xr == x ==> InColumn(xr, x, i + 1) == InColumn(xr, x, i) + 1 && i == x + InColumn(xr, x, i) * xr
    ensures i % xr != x ==> InColumn(xr, x, i + 1) == InColumn(xr, x, i)
  {
    var q, r := i / xr, i % xr;
    var a := DivParts(i, xr);
    InColumnIs(xr, x, i, q, r);
    if r + 1 < xr {
      InColumnIs(xr, x, i + 1, q, r + 1);
    } else {
      LessOne(q + 1, xr);
      InColumnIs(xr, x, i + 1, q + 1, 0);
    }
  }

  lemma LessOne(q: int, d: nat)
    ensures (q - 1) * d == q * d - d
    ensures q > 0 ==> q * d >= d
  {
    if q > 0 { MulLeq(1, q, d); }
  }

  /** i is in row y exactly when it lies in that row's range. */
  lemma RowOf(xr: nat, y: int, i: nat)
    requires xr > 0
    ensures i / xr == y <==> y * xr <= i < y * xr + xr
  {
    if y * xr <= i < y * xr + xr { Quotient(i, xr, y, i - y * xr); }
  }

  lemma RowDistinct(P: seq<int>, xr: nat, y: int)
    requires Distinct(P)
    ensures Distinct(Row(P, xr, y))
  {}

  lemma ColumnDistinct(P: seq<int>, xr: nat, x: int)
    requires Distinct(P)
    ensures Distinct(Column(P, xr, x))
  {
    var s := Column(P, xr, x);
    forall i, j | 0 <= i < j < |s| ensures s[i] != s[j] {
      ColumnIndex(xr, x, i, |P|);
      ColumnIndex(xr, x, j, |P|);
      MulLeq(i + 1, j, xr);
    }
  }

  // ----- The grid -----

  /** The PE of parent rank i is in row i / xr at place i % xr and in column i % xr at place
      i / xr. */
  lemma GridPlaces(P: seq<int>, xr: nat, i: nat)
    requires xr > 0 && i < |P|
    ensures i % xr < |Row(P, xr, i / xr)| && Row(P, xr, i / xr)[i % xr] == P[i]
    ensures i / xr < |Column(P, xr, i % xr)| && Column(P, xr, i % xr)[i / xr] == P[i]
  {
    var q, r := i / xr, i % xr;
    assert i == q * xr + r;
    MulLeq(0, q, xr);
    Quotient(i - r, xr, q, 0);
    InColumnAbove(xr, r, q, i, |P|);
  }

  lemma InColumnAbove(xr: nat, x: nat, q: nat, i: nat, n: nat)
    requires x < xr && i == q * xr + x && i < n
    ensures q < InColumn(xr, x, n)
  {
    var a := DivParts(n, xr);
    InColumnIs(xr, x, n, n / xr, n % xr);
    if n / xr < q { MulStep(n / xr, q, xr); }
  }

  /** Conversely, what is in row y, or in column x, has that coordinate: the PEs of a row all
      build the same row, the rows have no PE in common, and a row and a column share one. */
  lemma GridMembers(P: seq<int>, xr: nat, y: int, x: int, k: nat)
    requires xr > 0
    ensures k < |Row(P, xr, y)| ==> y >= 0 && 0 <= y * xr + k < |P| && Row(P, xr, y)[k] == P[y * xr + k]
    ensures k < |Row(P, xr, y)| ==> (y * xr + k) / xr == y && (y * xr + k) % xr == k
    ensures k < |Column(P, xr, x)| ==> 0 <= x < xr && 0 <= x + k * xr < |P| && Column(P, xr, x)[k] == P[x + k * xr]
    ensures k < |Column(P, xr, x)| ==> (x + k * xr) / xr == k && (x + k * xr) % xr == x
  {
    if k < |Row(P, xr, y)| { Quotient(y * xr + k, xr, y, k); }
    if k < |Column(P, xr, x)| {
      ColumnIndex(xr, x, k, |P|);
      Quotient(x + k * xr, xr, k, x);
    }
  }

  /** The rows partition the parent, and so do the columns: two PEs of the parent, each building
      its teams from its own coordinates, have the row in common when and only when their y
      coordinates agree, the column when their x coordinates do, and both when they are the same
      PE. */
  lemma GridPartition(P: seq<int>, xr: nat, i: nat, j: nat)
    requires Distinct(P) && xr > 0 && i < |P| && j < |P|
    ensures P[j] in Row(P, xr, i / xr) <==> j / xr == i / xr
    ensures P[j] in Column(P, xr, i % xr) <==> j % xr == i % xr
    ensures j / xr == i / xr && j % xr == i % xr <==> i == j
  {
    InRow(P, xr, i / xr, j);
    InColumnOf(P, xr, i % xr, j);
    hide Row, Column, Distinct;
    var a := DivParts(i, xr);
    var b := DivParts(j, xr);
  }

  /** The members fix the maps, whoever builds them. */
  lemma MapsUnique(f: map<int, int>, r: map<int, int>, g: map<int, int>, q: map<int, int>, s: seq<int>)
    requires MapsTo(f, r, s) && MapsTo(g, q, s)
    ensures f == g && r == q
  {
    assert forall k :: k in f <==> k in g;
    forall k | k in f ensures f[k] == g[k] { assert f[k] == s[k] && g[k] == s[k]; }
    forall k ensures k in r <==> k in q {
      Reverse(f, r, s, k);
      Reverse(g, q, s, k);
    }
    assert r.Keys == q.Keys;
    forall k | k in r ensures r[k] == q[k] {
      assert LastAt(s, r[k], k) && LastAt(s, q[k], k);
      LastUnique(s, r[k], q[k], k);
    }
  }

  /** Two PEs of one parent, of ranks i and j, each building maps on its own: they have the same
      x-axis maps exactly when they are in one row, and the same y-axis maps exactly when they are
      in one column. */
  lemma GridAgree(P: seq<int>, xr: nat, i: nat, j: nat,
                  xf: map<int, int>, xv: map<int, int>, yf: map<int, int>, yv: map<int, int>,
                  uf: map<int, int>, uv: map<int, int>, vf: map<int, int>, vv: map<int, int>)
    requires Distinct(P) && xr > 0 && i < |P| && j < |P|
    requires MapsTo(xf, xv, Row(P, xr, i / xr)) && MapsTo(yf, yv, Column(P, xr, i % xr))
    requires MapsTo(uf, uv, Row(P, xr, j / xr)) && MapsTo(vf, vv, Column(P, xr, j % xr))
    ensures xf == uf && xv == uv <==> i / xr == j / xr
    ensures yf == vf && yv == vv <==> i % xr == j % xr
  {
    hide Row, Column, Distinct;
    InRow(P, xr, i / xr, j);
    InColumnOf(P, xr, i % xr, j);
    InRow(P, xr, j / xr, j);
    InColumnOf(P, xr, j % xr, j);
    if i / xr == j / xr { MapsUnique(xf, xv, uf, uv, Row(P, xr, i / xr)); }
    if i % xr == j % xr { MapsUnique(yf, yv, vf, vv, Column(P, xr, i % xr)); }
    Reverse(xf, xv, Row(P, xr, i / xr), P[j]);
    Reverse(uf, uv, Row(P, xr, j / xr), P[j]);
    Reverse(yf, yv, Column(P, xr, i % xr), P[j]);
    Reverse(vf, vv, Column(P, xr, j % xr), P[j]);
  }

  lemma Reverse(f: map<int, int>, r: map<int, int>, s: seq<int>, g: int)
    requires MapsTo(f, r, s)
    ensures g in r <==> g in s
  {
    if g in r { assert LastAt(s, r[g], g); }
  }

  lemma InRow(P: seq<int>, xr: nat, y: int, j: nat)
    requires Distinct(P) && xr > 0 && j < |P|
    ensures P[j] in Row(P, xr, y) <==> j / xr == y
  {
    hide Row;
    GridPlaces(P, xr, j);
    if P[j] in Row(P, xr, y) {
      var k: nat :| k < |Row(P, xr, y)| && Row(P, xr, y)[k] == P[j];
      GridMembers(P, xr, y, 0, k);
      SameIndex(P, y * xr + k, j);
    }
  }

  lemma InColumnOf(P: seq<int>, xr: nat, x: int, j: nat)
    requires Distinct(P) && xr > 0 && j < |P|
    ensures P[j] in Column(P, xr, x) <==> j % xr == x
  {
    hide Column;
    GridPlaces(P, xr, j);
    if P[j] in Column(P, xr, x) {
      var k: nat :| k < |Column(P, xr, x)| && Column(P, xr, x)[k] == P[j];
      GridMembers(P, xr, 0, x, k);
      SameIndex(P, x + k * xr, j);
    }
  }

  lemma SameIndex(P: seq<int>, i: int, j: int)
    requires Distinct(P) && 0 <= i < |P| && 0 <= j < |P| && P[i] == P[j]
    ensures i == j
  {}

  /** The sizes split_2d declares. */
  function Rows(n: int, xr: int): int requires xr != 0 { Div(n + xr - 1, xr) }

  function RowSize(n: int, xr: int, y: int): int
    requires xr != 0
  {
    if y == Rows(n, xr) - 1 && Mod(n, xr) != 0 then Mod(n, xr) else xr
  }

  function ColumnSize(n: int, xr: int, x: int): int
    requires xr != 0
  {
    if x < Mod(n, xr) && Mod(n, xr) != 0 then Rows(n, xr)
    else if Mod(n, xr) == 0 then Rows(n, xr)
    else if x < Mod(n, xr) then Rows(n, xr) else Rows(n, xr) - 1
  }

  lemma RowsAre(n: nat, xr: nat)
    requires xr > 0
    ensures Rows(n, xr) == n / xr + (if n % xr == 0 then 0 else 1) && Mod(n, xr) == n % xr
  {
    var q, r := n / xr, n % xr;
    assert n == q * xr + r;
    TruncSame(n, xr);
    TruncSame(n + xr - 1, xr);
    if r == 0 {
      Quotient(n + xr - 1, xr, q, xr - 1);
    } else {
      assert (q + 1) * xr == q * xr + xr;
      Quotient(n + xr - 1, xr, q + 1, r - 1);
    }
  }

  /** For the row and the column of a member, they are the true sizes. */
  lemma SizesExact(P: seq<int>, xr: nat, rank: nat)
    requires 0 < xr <= |P| && rank < |P|
    ensures |Row(P, xr, rank / xr)| == RowSize(|P|, xr, rank / xr)
    ensures |Column(P, xr, rank % xr)| == ColumnSize(|P|, xr, rank % xr)
  {
    var n := |P|;
    RowsAre(n, xr);
    RowCount(P, xr, rank);
    ColumnCount(n, xr, rank % xr);
  }

  lemma Spaced(y: int, q: int, d: nat)
    ensures y < q ==> y * d + d <= q * d
    ensures y == q - 1 ==> y * d + d == q * d
  {
    assert (y + 1) * d == y * d + d;
    if y < q { MulLeq(y + 1, q, d); }
  }

  lemma RowCases(n: nat, d: nat, rank: nat, y: nat, q: nat, a: nat, b: nat, r: nat)
    requires a == y * d && b == q * d && n == b + r && r < d && a <= rank < a + d && rank < n
    ensures y <= q && (y < q ==> a + d <= n) && (y == q ==> r == n - a && r != 0) && (y == q - 1 && r == 0 ==> a + d == n)
  {
    Spaced(y, q, d);
    Spaced(q, y, d);
  }

  lemma DivParts(i: nat, d: nat) returns (p: nat)
    requires d > 0
    ensures p == i / d * d && i == p + i % d && i / d >= 0 && 0 <= i % d < d
  {
    MulLeq(0, i / d, d);
    p := i / d * d;
  }

  lemma RowCount(P: seq<int>, xr: nat, rank: nat)
    requires 0 < xr <= |P| && rank < |P|
    ensures |Row(P, xr, rank / xr)| == RowSize(|P|, xr, rank / xr)
  {
    var n := |P|;
    RowsAre(n, xr);
    var a := DivParts(rank, xr);
    var b := DivParts(n, xr);
    RowCases(n, xr, rank, rank / xr, n / xr, a, b, n % xr);
    hide Rows;
    assert |Row(P, xr, rank / xr)| == if a + xr <= n then xr else n - a;
  }

  lemma ColumnCount(n: nat, xr: nat, x: nat)
    requires x < xr <= n
    ensures InColumn(xr, x, n) == ColumnSize(n, xr, x)
  {
    RowsAre(n, xr);
    var a := DivParts(n, xr);
    InColumnIs(xr, x, n, n / xr, n % xr);
  }

  /** A caller outside the parent, whose rank is -1: in a grid one wide its row is empty and its
      column true, in any other its row is true and its column empty; the empty team declares a
      size that is not zero. */
  lemma SizesWrong(P: seq<int>, xr: nat)
    requires 0 < xr <= |P|
    ensures var row, rows := Row(P, xr, Div(-1, xr)), RowSize(|P|, xr, Div(-1, xr));
      if xr == 1 then row == [] && rows > 0 else |row| == rows
    ensures var col, cols := Column(P, xr, Mod(-1, xr)), ColumnSize(|P|, xr, Mod(-1, xr));
      if xr == 1 then |col| == cols else col == [] && cols > 0
  {
    RowsAre(|P|, xr);
    AtLeastOne(|P|, xr);
    if xr == 1 {
      assert Div(-1, xr) == -1 && Mod(-1, xr) == 0;
      ColumnCount(|P|, xr, 0);
    } else {
      Quotient(1, xr, 0, 1);
      assert Div(-1, xr) == 0 && Mod(-1, xr) == -1;
      Quotient(0, xr, 0, 0);
      RowCount(P, xr, 0);
    }
  }

  lemma AtLeastOne(n: nat, xr: nat)
    requires 0 < xr <= n
    ensures n / xr >= 1
  {
    assert n == n / xr * xr + n % xr;
  }

  // ----- Building a row or a column one index at a time -----

  function Least(a: int, b: int): int { if a < b then a else b }

  /** What lies below index i of the PEs from a up to b. */
  function Part(P: seq<int>, a: int, b: int, i: nat): seq<int>
    requires i <= |P|
  {
    if 0 <= a <= Least(b, i) then P[a..Least(b, i)] else []
  }

  lemma PartStep(P: seq<int>, a: int, b: int, i: nat)
    requires i < |P|
    ensures Part(P, a, b, i + 1) == if a <= i < b && 0 <= a then Part(P, a, b, i) + [P[i]] else Part(P, a, b, i)
  {}

  /** The part of row y below index i. */
  function RowUpTo(P: seq<int>, xr: nat, y: int, i: nat): seq<int>
    requires i <= |P|
  {
    Part(P, y * xr, y * xr + xr, i)
  }

  lemma RowStep(P: seq<int>, xr: nat, y: int, i: nat)
    requires xr > 0 && i < |P|
    ensures RowUpTo(P, xr, y, i + 1) == if i / xr == y then RowUpTo(P, xr, y, i) + [P[i]] else RowUpTo(P, xr, y, i)
  {
    hide Part;
    RowOf(xr, y, i);
    if i / xr == y { RowFrom(xr, y, i); }
    PartStep(P, y * xr, y * xr + xr, i);
  }

  lemma RowFrom(xr: nat, y: int, i: nat)
    requires xr > 0 && i / xr == y
    ensures 0 <= y * xr
  {
    MulLeq(0, y, xr);
  }

  lemma RowStart(P: seq<int>, xr: nat, y: int)
    ensures RowUpTo(P, xr, y, 0) == []
  {}

  /** Index i is on row y, or on column x, of the grid. */
  predicate OnRow(xr: int, y: int, i: int) { xr != 0 && Div(i, xr) == y }
  predicate OnColumn(xr: int, x: int, i: int) { xr != 0 && Mod(i, xr) == x }

  lemma RowAll(P: seq<int>, xr: nat, y: int)
    ensures RowUpTo(P, xr, y, |P|) == Row(P, xr, y)
  {
    if y < 0 { MulLeq(y, -1, xr); } else { MulLeq(0, y, xr); }
  }

  lemma ColumnExtend(P: seq<int>, xr: nat, x: nat, i: nat)
    requires x < xr && i < |P|
    ensures ColumnUpTo(P, xr, x, i + 1) == if i % xr == x then ColumnUpTo(P, xr, x, i) + [P[i]] else ColumnUpTo(P, xr, x, i)
  {
    ColumnStep(xr, x, i);
  }

  /** Where the next PE of a row, or of a column, goes. */
  lemma NextPlaces(P: seq<int>, xr: nat, i: nat)
    requires xr > 0 && i < |P|
    ensures |RowUpTo(P, xr, i / xr, i)| == i % xr && |ColumnUpTo(P, xr, i % xr, i)| == i / xr
  {
    var q, r := i / xr, i % xr;
    assert i == q * xr + r;
    MulLeq(0, q, xr);
    ColumnStep(xr, r, i);
    Quotient(i, xr, InColumn(xr, r, i), r);
  }

  /** start is the first PE of a team and stride the step to its second, if it has one. */
  ghost predicate Spans(start: int, stride: int, s: seq<int>, nranks: int) {
    && (|s| > 0 ==> start == s[0])
    && (|s| > 1 && nranks > 1 && s[1] != -1 ==> stride == s[1] - s[0])
  }

  lemma RowEnds(P: seq<int>, xr: nat, y: int)
    ensures |Row(P, xr, y)| > 0 ==> 0 <= y * xr < |P| && Row(P, xr, y)[0] == P[y * xr]
    ensures |Row(P, xr, y)| > 1 ==> y * xr + 1 < |P| && Row(P, xr, y)[1] == P[y * xr + 1]
  {}

  lemma ColumnEnds(P: seq<int>, xr: nat, x: int)
    ensures |Column(P, xr, x)| > 0 ==> 0 <= x < |P| && Column(P, xr, x)[0] == P[x]
    ensures |Column(P, xr, x)| > 1 ==> xr + x < |P| && Column(P, xr, x)[1] == P[xr + x]
  {
    if |Column(P, xr, x)| > 0 { ColumnIndex(xr, x, 0, |P|); }
    if |Column(P, xr, x)| > 1 { ColumnIndex(xr, x, 1, |P|); }
  }

  /** The rank that the maps of a team give a PE: its last, or -1. */
  function RankOf(rev: map<int, int>, me: int): int { if me in rev then rev[me] else -1 }

  lemma LastUnique(s: seq<int>, i: int, j: int, g: int)
    requires LastAt(s, i, g) && LastAt(s, j, g)
    ensures i == j
  {}

  /** A caller with a rank in the parent, even one that is there twice, has its place on the row
      as its rank in its row; a caller without one is not there. */
  lemma RowRank(fwd: map<int, int>, rev: map<int, int>, P: seq<int>, xr: nat, me: int, xf: map<int, int>, xv: map<int, int>)
    requires MapsTo(fwd, rev, P) && 0 < xr && MapsTo(xf, xv, Row(P, xr, Div(RankOf(rev, me), xr)))
    ensures RankOf(xv, me) == if RankOf(rev, me) >= 0 then Mod(RankOf(rev, me), xr) else -1
  {
    var rank := RankOf(rev, me);
    var row := Row(P, xr, Div(rank, xr));
    Reverse(xf, xv, row, me);
    if me in rev {
      assert LastAt(P, rank, me);
      TruncSame(rank, xr);
      LastInRow(P, xr, rank, me);
      LastUnique(row, xv[me], rank % xr, me);
    } else {
      NotInGrid(fwd, rev, P, xr, Div(rank, xr), 0, me);
    }
  }

  /** And its place on the column as its rank in its column. */
  lemma ColumnRank(fwd: map<int, int>, rev: map<int, int>, P: seq<int>, xr: nat, me: int, yf: map<int, int>, yv: map<int, int>)
    requires MapsTo(fwd, rev, P) && 0 < xr && MapsTo(yf, yv, Column(P, xr, Mod(RankOf(rev, me), xr)))
    ensures RankOf(yv, me) == if RankOf(rev, me) >= 0 then Div(RankOf(rev, me), xr) else -1
  {
    hide Column;
    var rank := RankOf(rev, me);
    var col := Column(P, xr, Mod(rank, xr));
    Reverse(yf, yv, col, me);
    if me in rev {
      assert LastAt(P, rank, me);
      TruncSame(rank, xr);
      LastInColumn(P, xr, rank, me);
      LastUnique(col, yv[me], rank / xr, me);
    } else {
      NotInGrid(fwd, rev, P, xr, 0, Mod(rank, xr), me);
    }
  }

  /** The caller's rank is one of the parent's, or -1. */
  lemma RankBelow(fwd: map<int, int>, rev: map<int, int>, P: seq<int>, me: int)
    requires MapsTo(fwd, rev, P)
    ensures -1 <= RankOf(rev, me) < |P| && (RankOf(rev, me) >= 0 <==> me in rev)
  {
    if me in rev { assert LastAt(P, rev[me], me); }
  }

  lemma LastInRow(P: seq<int>, xr: nat, i: nat, me: int)
    requires 0 < xr && LastAt(P, i, me)
    ensures LastAt(Row(P, xr, i / xr), i % xr, me)
  {
    hide Row;
    var row := Row(P, xr, i / xr);
    var p := DivParts(i, xr);
    GridPlaces(P, xr, i);
    forall k | i % xr < k < |row| ensures row[k] != me { GridMembers(P, xr, i / xr, 0, k); }
  }

  lemma LastInColumn(P: seq<int>, xr: nat, i: nat, me: int)
    requires 0 < xr && LastAt(P, i, me)
    ensures LastAt(Column(P, xr, i % xr), i / xr, me)
  {
    hide Column;
    var col := Column(P, xr, i % xr);
    GridPlaces(P, xr, i);
    forall k | i / xr < k < |col| ensures col[k] != me {
      GridMembers(P, xr, 0, i % xr, k);
      Beyond(i, xr, k);
    }
  }

  lemma Beyond(i: nat, xr: nat, k: nat)
    requires xr > 0 && k > i / xr
    ensures i % xr + k * xr > i
  {
    var p := DivParts(i, xr);
    MulStep(i / xr, k, xr);
  }

  lemma NotInGrid(fwd: map<int, int>, rev: map<int, int>, P: seq<int>, xr: nat, y: int, x: int, me: int)
    requires MapsTo(fwd, rev, P) && me !in rev && xr > 0
    ensures me !in Row(P, xr, y) && me !in Column(P, xr, x)
  {
    var row, col := Row(P, xr, y), Column(P, xr, x);
    forall k | 0 <= k < |row| ensures row[k] != me { GridMembers(P, xr, y, x, k); }
    forall k | 0 <= k < |col| ensures col[k] != me { GridMembers(P, xr, y, x, k); }
  }

  /** In a grid no wider than the team, or exactly as wide: one row, and columns of one PE. */
  lemma Coordinates(P: seq<int>, xr: nat, rank: nat)
    requires xr > 0 && rank < |P|
    ensures xr > |P| ==> rank % |P| == rank && rank / |P| == 0 && Row(P, |P|, 0) == P && Column(P, |P|, rank) == [P[rank]]
  {
    var n := |P|;
    Quotient(rank, n, 0, rank);
    Quotient(n, n, 1, 0);
    ColumnCount(n, n, rank);
    RowsAre(n, n);
    ColumnEnds(P, n, rank);
  }

  lemma TruncSame(a: nat, b: nat)
    requires b > 0
    ensures Div(a, b) == a / b && Mod(a, b) == a % b
  {
    assert a == b * (a / b) + a % b;
  }

  lemma ModBelow(a: int, b: nat)
    requires b > 0
    ensures Mod(a, b) < b
  {
    if a >= 0 {
      TruncSame(a, b);
    } else {
      assert -a == b * (-a / b) + -a % b;
      assert b * Div(a, b) == -(b * (-a / b));
    }
  }
}
