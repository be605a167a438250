/** Circular doubly linked lists through the fd and bk words of chunks. */
module Rings {
  import opened Layout

  function Fd(m: Memory, p: int): int { At(m, p + 2) }
  function Bk(m: Memory, p: int): int { At(m, p + 3) }

  function Next(r: seq<int>, k: int): int
    requires 0 <= k < |r|
  {
    if k + 1 < |r| then r[k + 1] else r[0]
  }

  function Prev(r: seq<int>, k: int): int
    requires 0 <= k < |r|
  {
    if k == 0 then r[|r| - 1] else r[k - 1]
  }

  /** Two nodes whose fd and bk words do not overlap. */
  predicate Clear(a: int, b: int) { a + 1 < b || b + 1 < a }
  predicate Fits(n: int, a: int) { 0 <= a && a + 3 < n }

  ghost predicate Spaced(n: int, r: seq<int>) {
    && |r| >= 1
    && (forall k | 0 <= k < |r| :: Fits(n, r[k]))
    && (forall j, k | 0 <= j < k < |r| :: Clear(r[j], r[k]))
  }

  predicate LinkAt(m: Memory, r: seq<int>, k: int)
    requires 0 <= k < |r|
  {
    Fd(m, r[k]) == Next(r, k) && Bk(m, r[k]) == Prev(r, k)
  }

  ghost predicate Linked(m: Memory, r: seq<int>) {
    forall k | 0 <= k < |r| :: LinkAt(m, r, k)
  }

  /** The nodes of r, in fd order, form one ring. */
  ghost predicate Ring(m: Memory, r: seq<int>) { Spaced(|m|, r) && Linked(m, r) }

  function InsertAfter(r: seq<int>, x: int): seq<int>
    requires |r| >= 1
  {
    [r[0], x] + r[1..]
  }

  function RemoveAt<T>(r: seq<T>, k: int): seq<T>
    requires 0 <= k < |r|
  {
    r[..k] + r[k + 1..]
  }

  /** The four link writes that put x between a and its successor f. */
  function Join(m: Memory, a: int, x: int, f: int): Memory
    requires Fits(|m|, a) && Fits(|m|, x) && Fits(|m|, f)
  {
    m[a + 2 := x][f + 3 := x][x + 2 := f][x + 3 := a]
  }

  /** The two link writes that take out the node between b and f. */
  function Cut(m: Memory, f: int, b: int): Memory
    requires Fits(|m|, f) && Fits(|m|, b)
  {
    m[f + 3 := b][b + 2 := f]
  }

  lemma JoinWords(m: Memory, a: int, x: int, f: int)
    requires Fits(|m|, a) && Fits(|m|, x) && Fits(|m|, f) && Clear(a, x) && Clear(f, x) && (a == f || Clear(a, f))
    ensures var w := Join(m, a, x, f);
      && |w| == |m|
      && Fd(w, a) == x && Bk(w, f) == x && Fd(w, x) == f && Bk(w, x) == a
      && (forall y | y != a + 2 && y != f + 3 && y != x + 2 && y != x + 3 :: At(w, y) == At(m, y))
  {}

  lemma CutWords(m: Memory, f: int, b: int)
    requires Fits(|m|, f) && Fits(|m|, b) && (b == f || Clear(b, f))
    ensures var w := Cut(m, f, b);
      && |w| == |m|
      && Bk(w, f) == b && Fd(w, b) == f
      && (forall y | y != f + 3 && y != b + 2 :: At(w, y) == At(m, y))
  {}

  lemma InsertSpaced(n: int, r: seq<int>, x: int)
    requires Spaced(n, r) && Fits(n, x)
    requires forall k | 0 <= k < |r| :: Clear(r[k], x)
    ensures Spaced(n, InsertAfter(r, x))
  {}

  /** Inserting after the first node: the ring gains exactly x, in second place. A lone first
      node need not be linked to itself beforehand. */
  lemma InsertRing(m: Memory, r: seq<int>, x: int)
    requires Spaced(|m|, r) && (|r| > 1 ==> Linked(m, r))
    requires Fits(|m|, x)
    requires forall k | 0 <= k < |r| :: Clear(r[k], x)
    ensures Ring(Join(m, r[0], x, Next(r, 0)), InsertAfter(r, x))
  {
    InsertSpaced(|m|, r, x);
    var s, f := InsertAfter(r, x), Next(r, 0);
    JoinWords(m, r[0], x, f);
    var w := Join(m, r[0], x, f);
    hide Join;
    forall k | 0 <= k < |s| ensures LinkAt(w, s, k) {
      if k >= 2 {
        assert s[k] == r[k - 1] && LinkAt(m, r, k - 1);
      } else {
        assert |r| > 1 ==> LinkAt(m, r, 0);
      }
    }
  }

  lemma RemoveSpaced(n: int, r: seq<int>, k: int)
    requires Spaced(n, r) && |r| >= 2 && 0 <= k < |r|
    ensures Spaced(n, RemoveAt(r, k))
  {
    var s := RemoveAt(r, k);
    forall i | 0 <= i < |s| ensures s[i] == r[if i < k then i else i + 1] {}
  }

  /** Cutting node k out of a ring of two or more leaves the ring of the others. */
  lemma RemoveRing(m: Memory, r: seq<int>, k: int)
    requires Ring(m, r) && |r| >= 2 && 0 <= k < |r|
    ensures Fits(|m|, Next(r, k)) && Fits(|m|, Prev(r, k))
    ensures Ring(Cut(m, Next(r, k), Prev(r, k)), RemoveAt(r, k))
  {
    RemoveSpaced(|m|, r, k);
    var f, b := Next(r, k), Prev(r, k);
    CutWords(m, f, b);
    var w, s := Cut(m, f, b), RemoveAt(r, k);
    hide Cut;
    forall i | 0 <= i < |s| ensures LinkAt(w, s, i) {
      var j := if i < k then i else i + 1;
      assert s[i] == r[j] && LinkAt(m, r, j);
    }
  }

  /** The same ring read from its last node. */
  function Rotate(r: seq<int>): seq<int>
    requires |r| >= 1
  {
    [r[|r| - 1]] + r[..|r| - 1]
  }

  lemma RotateRing(m: Memory, r: seq<int>)
    requires Ring(m, r)
    ensures Ring(m, Rotate(r))
  {
    var s := Rotate(r);
    forall j, k | 0 <= j < k < |s| ensures Clear(s[j], s[k]) {
      if j == 0 { assert s[k] == r[k - 1]; }
    }
    forall i | 0 <= i < |s| ensures LinkAt(m, s, i) {
      var j := if i == 0 then |r| - 1 else i - 1;
      assert s[i] == r[j] && LinkAt(m, r, j);
    }
  }

  /** A ring reads only the link words of its nodes. */
  lemma RingKept(m: Memory, w: Memory, r: seq<int>)
    requires Ring(m, r) && |w| == |m|
    requires forall k | 0 <= k < |r| :: Fd(w, r[k]) == Fd(m, r[k]) && Bk(w, r[k]) == Bk(m, r[k])
    ensures Ring(w, r)
  {
    forall k | 0 <= k < |r| ensures LinkAt(w, r, k) {
      assert LinkAt(m, r, k);
    }
  }
}
