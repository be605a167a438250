/** Teams of PEs: each PE builds its own maps, without hearing from the others. */
module Teams {
  import opened TeamMaps
  import opened Splits

  /** How a two-dimensional split ends; two of the ways are undefined behaviour in C. */
  datatype Outcome = Made | Refused | DividesByZero | ReadsUnmapped

  /** proc.li: what the launcher told this PE. */
  datatype Launch = Launch(rank: int, nranks: nat, peers: seq<int>)

  class Team {
    var rank: int
    var nranks: int
    var start: int
    var stride: int
    var fwd: map<int, int>
    var rev: map<int, int>

    /** The global PEs by team rank. */
    ghost var members: seq<int>

    /** The maps stand for the members, and rank is that of global PE me, or -1. */
    ghost predicate Mapped(me: int)
      reads this
    {
      MapsTo(fwd, rev, members) && rank == RankOf(rev, me)
    }

    /** What holds of every team this file makes: a size that is not true belongs to no PE. */
    ghost predicate Built(me: int)
      reads this
    {
      Mapped(me) && Sound(AsShape())
    }

    /** Every PE has one rank and every rank one PE, and the declared size is the true one. */
    ghost predicate Valid(me: int)
      reads this
    {
      Built(me) && Distinct(members) && nranks == |members|
    }

    ghost function AsShape(): Shape
      reads this
    {
      Shape(nranks, members)
    }

    /** initialize_common_team */
    constructor ()
      ensures members == [] && fwd == map[] && rev == map[] && rank == -1 && nranks == 0
    {
      rank, nranks, start, stride, fwd, rev, members := -1, 0, -1, -1, map[], map[], [];
    }

    /** kh_put and kh_val on both maps: the next rank goes to a global PE. */
    method Append(idx: int, globalPe: int)
      requires MapsTo(fwd, rev, members) && idx == |members|
      modifies this`fwd, this`rev, this`members
      ensures MapsTo(fwd, rev, members) && members == old(members) + [globalPe]
      ensures rev == old(rev)[globalPe := idx]
    {
      MapsExtend(fwd, rev, members, globalPe);
      fwd := fwd[idx := globalPe];
      rev := rev[globalPe := idx];
      members := members + [globalPe];
    }

    /** initialize_team_world */
    method InitWorld(li: Launch)
      requires members == [] && fwd == map[] && rev == map[] && 0 <= li.rank < li.nranks
      modifies this
      ensures Valid(li.rank) && |members| == li.nranks && forall i | 0 <= i < li.nranks :: members[i] == i
      ensures rank == li.rank && start == 0 && stride == 1
    {
      rank := li.rank;
      nranks := li.nranks;
      start := 0;
      stride := 1;
      for i := 0 to li.nranks
        invariant MapsTo(fwd, rev, members) && |members| == i && rank == li.rank && nranks == li.nranks && start == 0 && stride == 1
        invariant (forall k | 0 <= k < i :: members[k] == k) && (forall g :: g in rev ==> rev[g] == g)
        invariant forall g | 0 <= g < i :: g in rev
      {
        Append(i, i);
      }
    }

    /** initialize_team_shared */
    method InitShared(li: Launch)
      requires members == [] && fwd == map[] && rev == map[] && Distinct(li.peers)
      modifies this
      ensures Valid(li.rank) && members == li.peers
      ensures start == (if |li.peers| > 0 then li.peers[0] else -1) && stride == 1
    {
      rank := -1;
      nranks := |li.peers|;
      start := if nranks > 0 then li.peers[0] else -1;
      stride := 1;
      for i := 0 to |li.peers|
        invariant Mapped(li.rank) && members == li.peers[..i] && nranks == |li.peers| && stride == 1
        invariant start == if |li.peers| > 0 then li.peers[0] else -1
      {
        if li.rank == li.peers[i] {
          rank := i;
        }
        Append(i, li.peers[i]);
      }
    }

    /** shmemc_team_translate_pe: by way of the global PE. */
    static method TranslatePe(src: Team, srcPe: int, dst: Team) returns (r: int)
      ensures r == Translated(src.fwd, dst.rev, srcPe)
    {
      if srcPe !in src.fwd {
        return -1;
      }
      var wpe := src.fwd[srcPe];
      if wpe !in dst.rev {
        return -1;
      }
      r := dst.rev[wpe];
    }

    /** shmemc_team_split_strided: -1 when a step falls outside the parent.

        The new team takes every stride-th PE of the parent from start on. Its maps undo each
        other, and its declared size is true, exactly when no PE is taken twice and the size is
        not negative; in a parent without repetition no PE is taken twice exactly when the stride
        is not zero or at most one is taken. */
    static method SplitStrided(parent: Team, start: int, stride: int, size: int, me: int) returns (r: int, newt: Team?)
      requires parent.Built(me)
      ensures r == -1 <==> Taken(parent.AsShape(), Stride(start, stride, size), me).None?
      ensures r == -1 ==> newt == null
      ensures r != -1 ==> r == 0 && newt != null && fresh(newt) && newt.Built(me) && newt.start == start && newt.stride == stride
      ensures r != -1 ==> Taken(parent.AsShape(), Stride(start, stride, size), me) == Some(newt.AsShape())
      ensures r != -1 ==> |newt.members| == (if size < 0 then 0 else size) && newt.nranks == size
      ensures r != -1 ==> forall i | 0 <= i < size :: 0 <= start + i * stride < |parent.members| && newt.members[i] == parent.members[start + i * stride]
      ensures r != -1 ==> (newt.Valid(me) <==> size >= 0 && Distinct(newt.members))
      ensures r != -1 && Distinct(parent.members) ==> (newt.Valid(me) <==> size >= 0 && (stride != 0 || size <= 1))
    {
      hide Strided, MapsTo, Distinct, InParent;
      newt := new Team();
      newt.nranks := size;
      newt.start := start;
      newt.stride := stride;
      newt.rank := -1;
      var ok := newt.FillStrided(parent, start, stride, size, me);
      if !ok {
        return -1, null;
      }
      r := 0;
      ghost var n := if size < 0 then 0 else size;
      StridedMembers(parent.members, start, stride, n);
      if Distinct(parent.members) { StridedDistinct(parent.members, start, stride, n); }
    }

    /** The walk of shmemc_team_split_strided. */
    method FillStrided(parent: Team, start: int, stride: int, size: int, me: int) returns (ok: bool)
      requires this != parent && parent.Built(me)
      requires members == [] && fwd == map[] && rev == map[] && rank == -1
      modifies this`rank, this`fwd, this`rev, this`members
      ensures ok <==> InsideAll(|parent.members|, start, stride, size)
      ensures ok ==> Mapped(me) && members == Strided(parent.members, start, stride, if size < 0 then 0 else size)
    {
      hide Strided;
      ghost var P := parent.members;
      var walk := start;
      var i := 0;
      StridedStart(P, start, stride);
      while i < size
        invariant 0 <= i && (i <= size || i == 0) && walk == start + i * stride && Mapped(me)
        invariant InsideAll(|P|, start, stride, i) && members == Strided(P, start, stride, i) && |members| == i
        decreases size - i
      {
        if walk !in parent.fwd {
          assert !InParent(|P|, start, stride, i);
          return false;
        }
        assert InParent(|P|, start, stride, i);
        var globalPe := parent.fwd[walk];
        Append(i, globalPe);
        if globalPe == me {
          rank := i;
        }
        StridedExtend(P, start, stride, i);
        walk := walk + stride;
        i := i + 1;
      }
      ok := true;
    }

    /** The start and stride of a two-dimensional split, from the parent's PEs at p0 and p1. */
    method SetSpan(parent: Team, p0: int, p1: int)
      requires this != parent
      modifies this`start, this`stride
      ensures p0 in parent.fwd ==> start == parent.fwd[p0]
      ensures p0 in parent.fwd && p1 in parent.fwd && nranks > 1 && parent.fwd[p1] != -1 ==>
        stride == parent.fwd[p1] - parent.fwd[p0]
    {
      var pe0, pe1 := -1, -1;
      if p0 in parent.fwd {
        pe0 := parent.fwd[p0];
      }
      if nranks > 1 && p1 in parent.fwd {
        pe1 := parent.fwd[p1];
      }
      start := pe0;
      stride := if nranks > 1 && pe1 != -1 then pe1 - pe0 else 1;
    }

    /** The x-axis part of shmemc_team_split_2d: the row of the caller. It fails to find a PE
        exactly when the row has a rank that the parent declares and does not map. */
    static method SplitRow(parent: Team, xr: int, yrange: int, myY: int, me: int) returns (ok: bool, t: Team)
      requires parent.Built(me) && IsWidth(parent.nranks, xr) && yrange == Rows(parent.nranks, xr)
      requires myY == Div(parent.rank, xr)
      ensures fresh(t)
      ensures ok <==> forall i | 0 <= i < parent.nranks && OnRow(xr, myY, i) :: i < |parent.members|
      ensures ok ==> t.Mapped(me) && t.AsShape() == RowTeam(parent.AsShape(), xr, parent.rank)
      ensures ok ==> t.rank == (if parent.rank >= 0 then Mod(parent.rank, xr) else -1)
      ensures ok ==> Spans(t.start, t.stride, t.members, t.nranks)
    {
      hide Row;
      t := new Team();
      if myY == yrange - 1 && Mod(parent.nranks, xr) != 0 {
        t.nranks := Mod(parent.nranks, xr);
      } else {
        t.nranks := xr;
      }
      t.SetSpan(parent, myY * xr + 0, myY * xr + 1);
      ok := t.FillRow(parent, xr, myY, me);
      if xr > 0 { RowEnds(parent.members, xr, myY); }
    }

    /** The loop that fills the x-axis team. */
    method FillRow(parent: Team, xr: int, myY: int, ghost me: int) returns (ok: bool)
      requires this != parent && parent.Built(me) && IsWidth(parent.nranks, xr) && myY == Div(parent.rank, xr)
      requires members == [] && fwd == map[] && rev == map[]
      modifies this`rank, this`fwd, this`rev, this`members
      ensures ok <==> forall i | 0 <= i < parent.nranks && OnRow(xr, myY, i) :: i < |parent.members|
      ensures ok ==> Mapped(me) && members == (if xr > 0 then Row(parent.members, xr, myY) else [])
      ensures ok ==> rank == if parent.rank >= 0 then Mod(parent.rank, xr) else -1
    {
      hide Row, RowUpTo, Div, Mod;
      ghost var P := parent.members;
      rank := -1;
      var idx, i := 0, 0;
      if xr > 0 { RowStart(P, xr, myY); }
      while i < parent.nranks
        invariant 0 <= i && (i <= parent.nranks || i == 0) && |members| == idx && MapsTo(fwd, rev, members)
        invariant forall j | 0 <= j < i && OnRow(xr, myY, j) :: j < |P|
        invariant members == if xr > 0 then RowUpTo(P, xr, myY, Least(i, |P|)) else []
        invariant rank == if 0 <= parent.rank < i then Mod(parent.rank, xr) else -1
      {
        var peY := Div(i, xr);
        TruncSame(i, xr);
        if i < |P| {
          RowStep(P, xr, myY, i);
          NextPlaces(P, xr, i);
        }
        if peY == myY {
          assert OnRow(xr, myY, i);
          if i !in parent.fwd {
            return false;
          }
          var globalPe := parent.fwd[i];
          Append(idx, globalPe);
          if i == parent.rank {
            rank := idx;
          }
          idx := idx + 1;
        }
        i := i + 1;
      }
      RankBelow(parent.fwd, parent.rev, P, me);
      ok := true;
      if xr > 0 {
        RowAll(P, xr, myY);
        RowRank(parent.fwd, parent.rev, P, xr, me, fwd, rev);
      }
    }

    /** The y-axis part of shmemc_team_split_2d: the column of the caller. */
    static method SplitColumn(parent: Team, xr: int, yrange: int, myX: int, me: int) returns (ok: bool, t: Team)
      requires parent.Built(me) && IsWidth(parent.nranks, xr) && yrange == Rows(parent.nranks, xr)
      requires myX == Mod(parent.rank, xr)
      ensures fresh(t)
      ensures ok <==> forall i | 0 <= i < parent.nranks && OnColumn(xr, myX, i) :: i < |parent.members|
      ensures ok ==> t.Mapped(me) && t.AsShape() == ColumnTeam(parent.AsShape(), xr, parent.rank)
      ensures ok ==> t.rank == (if parent.rank >= 0 then Div(parent.rank, xr) else -1)
      ensures ok ==> Spans(t.start, t.stride, t.members, t.nranks)
    {
      hide Column, Mod, Rows;
      t := new Team();
      t.nranks :=
        if myX < Mod(parent.nranks, xr) && Mod(parent.nranks, xr) != 0 then yrange
        else if Mod(parent.nranks, xr) == 0 then yrange
        else if myX < Mod(parent.nranks, xr) then yrange else yrange - 1;
      t.SetSpan(parent, 0 * xr + myX, 1 * xr + myX);
      ok := t.FillColumn(parent, xr, myX, me);
      if xr > 0 { ColumnEnds(parent.members, xr, myX); }
    }

    /** The loop that fills the y-axis team. */
    method FillColumn(parent: Team, xr: int, myX: int, ghost me: int) returns (ok: bool)
      requires this != parent && parent.Built(me) && IsWidth(parent.nranks, xr) && myX == Mod(parent.rank, xr)
      requires members == [] && fwd == map[] && rev == map[]
      modifies this`rank, this`fwd, this`rev, this`members
      ensures ok <==> forall i | 0 <= i < parent.nranks && OnColumn(xr, myX, i) :: i < |parent.members|
      ensures ok ==> Mapped(me) && members == (if xr > 0 then Column(parent.members, xr, myX) else [])
      ensures ok ==> rank == if parent.rank >= 0 then Div(parent.rank, xr) else -1
    {
      hide ColumnUpTo, Div, Mod;
      ghost var P := parent.members;
      rank := -1;
      var idx, i := 0, 0;
      if xr > 0 { ModBelow(parent.rank, xr); }
      while i < parent.nranks
        invariant 0 <= i && (i <= parent.nranks || i == 0) && |members| == idx && MapsTo(fwd, rev, members)
        invariant forall j | 0 <= j < i && OnColumn(xr, myX, j) :: j < |P|
        invariant members == if 0 <= myX < xr then ColumnUpTo(P, xr, myX, Least(i, |P|)) else []
        invariant rank == if 0 <= parent.rank < i then Div(parent.rank, xr) else -1
      {
        var peX := Mod(i, xr);
        TruncSame(i, xr);
        if i < |P| {
          if 0 <= myX < xr { ColumnExtend(P, xr, myX, i); }
          NextPlaces(P, xr, i);
        }
        if peX == myX {
          assert OnColumn(xr, myX, i);
          if i !in parent.fwd {
            return false;
          }
          var globalPe := parent.fwd[i];
          Append(idx, globalPe);
          if i == parent.rank {
            rank := idx;
          }
          idx := idx + 1;
        }
        i := i + 1;
      }
      RankBelow(parent.fwd, parent.rev, P, me);
      ok := true;
      if xr > 0 {
        ColumnRank(parent.fwd, parent.rev, P, xr, me, fwd, rev);
      }
    }

    /** shmemc_team_split_2d.

        A width that is not positive is refused. A parent that declares no ranks makes it divide
        by zero, and one that declares more ranks than it maps makes it read an entry that is not
        there; with any other parent both teams are made. The x-axis team is then the row, and
        the y-axis team the column, of a grid whose width is xrange or, if that is less, the size
        of the parent. A member of the parent gets its coordinates as ranks; for a member, and
        for nobody else, both declared sizes are true. */
    static method Split2d(parent: Team, xrange: int, me: int) returns (r: Outcome, x: Team?, y: Team?)
      requires parent.Built(me)
      ensures r == Refused <==> xrange <= 0
      ensures r == DividesByZero <==> xrange > 0 && parent.nranks == 0
      ensures r == ReadsUnmapped <==> xrange > 0 && parent.nranks > |parent.members|
      ensures r == Made <==> xrange > 0 && parent.nranks != 0 && parent.nranks <= |parent.members|
      ensures r != Made ==> x == null && y == null
      ensures r == Made ==> x != null && y != null && fresh(x) && fresh(y) && x.Built(me) && y.Built(me)
      ensures r == Made ==> Taken(parent.AsShape(), XAxis(xrange), me) == Some(x.AsShape())
      ensures r == Made ==> Taken(parent.AsShape(), YAxis(xrange), me) == Some(y.AsShape())
      ensures r == Made ==> Spans(x.start, x.stride, x.members, x.nranks) && Spans(y.start, y.stride, y.members, y.nranks)
      ensures r == Made && me in parent.rev ==>
        if xrange <= parent.nranks then x.rank == parent.rank % xrange && y.rank == parent.rank / xrange
        else x.rank == parent.rank && y.rank == 0
      ensures r == Made && xrange <= parent.nranks ==>
        x.members == Row(parent.members, xrange, Div(parent.rank, xrange)) && y.members == Column(parent.members, xrange, Mod(parent.rank, xrange))
      ensures r == Made && me in parent.rev && xrange > parent.nranks ==>
        0 <= parent.rank < |parent.members| && x.members == parent.members && y.members == [parent.members[parent.rank]]
      ensures r == Made ==> (x.nranks == |x.members| && y.nranks == |y.members| <==> me in parent.rev)
      ensures r == Made && Distinct(parent.members) ==> (x.Valid(me) && y.Valid(me) <==> me in parent.rev)
    {
      hide Row, Column, RowSize, ColumnSize, OnRow, OnColumn, MapsTo, Spans;
      if xrange <= 0 {
        return Refused, null, null;
      }
      var xr := xrange;
      if xr > parent.nranks {
        xr := parent.nranks;
      }
      if xr == 0 {
        return DividesByZero, null, null;
      }
      var yrange := Div(parent.nranks + xr - 1, xr);
      var myX, myY := Mod(parent.rank, xr), Div(parent.rank, xr);
      RankIsIn(parent.fwd, parent.rev, parent.members, me);
      RankBelow(parent.fwd, parent.rev, parent.members, me);
      SplitFacts(parent.AsShape(), xr, parent.rank);
      var ok;
      ok, x := SplitRow(parent, xr, yrange, myY, me);
      if !ok {
        return ReadsUnmapped, null, null;
      }
      ok, y := SplitColumn(parent, xr, yrange, myX, me);
      if !ok {
        return ReadsUnmapped, null, null;
      }
      r := Made;
      if me in parent.rev {
        TruncSame(parent.rank, xr);
        Coordinates(parent.members, xrange, parent.rank);
      }
      if Distinct(parent.members) && xr > 0 {
        RowDistinct(parent.members, xr, myY);
        ColumnDistinct(parent.members, xr, myX);
      }
    }
  }
}
