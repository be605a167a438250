/** Triangular probing of a table whose size is a power of two. */
module Probing {
  import opened Products
  import opened Sizes
  import opened Words

  /** The sum of the first s steps. */
  function Triangle(s: nat): nat { s * (s + 1) / 2 }

  /** Where the probe sequence of hash h stands after s steps. */
  function Probe(h: nat, n: nat, s: nat): (i: nat)
    requires n > 0
    ensures i < n
  {
    (h + Triangle(s)) % n
  }

  // ----- Powers of two and products -----

  /** A product, named so that proofs can keep it folded. */
  function Times(a: int, b: int): int { a * b }

  lemma TimesTwice(a: int, b: int)
    ensures Times(2 * a, b) == 2 * Times(a, b) && Times(a, 2 * b) == 2 * Times(a, b)
  {}

  lemma TimesNext(a: int, b: int)
    ensures Times(a + 1, b) == Times(a, b) + b && Times(a, b + 1) == Times(a, b) + a
  {}

  lemma EvenTimes(a: int, b: int)
    requires b % 2 == 0
    ensures Times(a, b) % 2 == 0 && Times(b, a) % 2 == 0
  {
    hide Times;
    TimesTwice(a, b / 2);
    TimesTwice(b / 2, a);
    assert b == 2 * (b / 2);
  }

  lemma OddTimes(a: int, b: int)
    requires a % 2 == 1 && b % 2 == 1
    ensures Times(a, b) % 2 == 1
  {
    hide Times;
    EvenTimes(b, a - 1);
    TimesNext(a - 1, b);
  }

  ghost predicate Divides(d: nat, x: int) { exists q: int :: x == Times(d, q) }

  lemma HalfOf(a: int, b: int, p: nat, d: nat, q: int) returns (c: int)
    requires a % 2 == 1 && d == 2 * p && Times(a, b) == Times(d, q)
    ensures b == 2 * c && Times(a, c) == Times(p, q)
  {
    hide Times;
    TimesTwice(p, q);
    if b % 2 == 1 { OddTimes(a, b); }
    c := b / 2;
    TimesTwice(a, c);
  }

  lemma DividesTwice(p: nat, d: nat, c: int, b: int)
    requires d == 2 * p && b == 2 * c && Divides(p, c)
    ensures Divides(d, b)
  {
    hide Times;
    var r: int :| c == Times(p, r);
    TimesTwice(p, r);
    assert b == Times(d, r);
  }

  lemma TimesOne(b: int)
    ensures Times(1, b) == b
  {}

  /** An odd factor takes nothing from a power of two. */
  lemma {:induction false} OddFactor(a: int, b: int, m: nat, d: nat, q: int)
    requires a % 2 == 1 && d == Pow2(m) && Times(a, b) == Times(d, q)
    ensures Divides(d, b)
    decreases m
  {
    hide Times;
    if m == 0 {
      TimesOne(b);
      assert b == Times(d, b);
    } else {
      var p := Pow2(m - 1);
      var c := HalfOf(a, b, p, d, q);
      OddFactor(a, c, m - 1, p, q);
      DividesTwice(p, d, c, b);
    }
  }

  /** Of two numbers of different parity below 2^m, the product is no multiple of 2^m. */
  lemma NoProduct(a: nat, b: nat, m: nat, d: nat, q: int)
    requires d == Pow2(m) && 0 < a < d && 0 < b < d && (a + b) % 2 == 1
    ensures Times(a, b) != Times(d, q)
  {
    hide Times, Pow2, Divides;
    if Times(a, b) == Times(d, q) {
      if a % 2 == 1 {
        OddFactor(a, b, m, d, q);
        NoMultiple(d, b);
      } else {
        TimesComm(a, b);
        OddFactor(b, a, m, d, q);
        NoMultiple(d, a);
      }
    }
  }

  lemma TimesComm(a: int, b: int)
    ensures Times(a, b) == Times(b, a)
  {}

  lemma NoMultiple(d: nat, x: int)
    requires 0 < x < d
    ensures !Divides(d, x)
  {
    forall q: int ensures x != Times(d, q) {
      if q >= 1 { assert Times(d, q) >= d; } else { assert Times(d, q) <= 0; }
    }
  }

  lemma TriangleTwice(s: nat)
    ensures 2 * Triangle(s) == Times(s, s + 1)
  {
    if s % 2 == 0 { EvenTimes(s + 1, s); } else { EvenTimes(s, s + 1); }
  }

  lemma EqualMod(x: nat, y: nat, n: nat) returns (q: int)
    requires n > 0 && x % n == y % n
    ensures x - y == Times(n, q)
  {
    q := x / n - y / n;
  }

  /** Triangle(s) - Triangle(t), doubled. */
  lemma Gap(s: nat, t: nat)
    requires t < s
    ensures 2 * (Triangle(s) - Triangle(t)) == Times(s - t, s + t + 1)
  {
    hide Triangle, Times;
    TriangleTwice(s);
    TriangleTwice(t);
    GapProduct(s, t);
  }

  lemma GapProduct(s: int, t: int)
    ensures Times(s - t, s + t + 1) == Times(s, s + 1) - Times(t, t + 1)
  {}

  lemma ProbesGap(h: nat, n: nat, s: nat, t: nat) returns (q: int)
    requires n > 0 && t < s && Probe(h, n, s) == Probe(h, n, t)
    ensures Times(s - t, s + t + 1) == Times(2 * n, q)
  {
    hide Triangle, Times;
    q := EqualMod(h + Triangle(s), h + Triangle(t), n);
    Gap(s, t);
    TimesTwice(n, q);
  }

  /** Two probes less than 2n steps apart, and less than 2n in sum, are never the same. */
  lemma ProbesApart(h: nat, m: nat, s: nat, t: nat)
    requires t < s && s + t + 1 < 2 * Pow2(m)
    ensures Probe(h, Pow2(m), s) != Probe(h, Pow2(m), t)
  {
    hide Probe, Times;
    var n := Pow2(m);
    if Probe(h, n, s) == Probe(h, n, t) {
      var q := ProbesGap(h, n, s, t);
      NoProduct(s - t, s + t + 1, m + 1, 2 * n, q);
    }
  }

  /** The start comes round again at step 2n - 1 and not before. */
  lemma FirstReturn(h: nat, m: nat, s: nat)
    requires 0 < s <= 2 * Pow2(m) - 1
    ensures Probe(h, Pow2(m), s) == Probe(h, Pow2(m), 0) <==> s == 2 * Pow2(m) - 1
  {
    var n := Pow2(m);
    if s == 2 * n - 1 {
      LastTriangle(n);
      ModPlus(h, n, s);
    } else {
      ProbesApart(h, m, s, 0);
    }
  }

  lemma LastTriangle(n: nat)
    requires n > 0
    ensures Triangle(2 * n - 1) == Times(n, 2 * n - 1)
  {
    hide Triangle, Times;
    TriangleTwice(2 * n - 1);
    TimesTwice(2 * n - 1, n);
    TimesComm(2 * n - 1, n);
  }

  lemma ModPlus(h: nat, n: nat, k: nat)
    requires n > 0
    ensures (h + Times(n, k)) % n == h % n
  {
    assert Times(n, h / n + k) == Times(n, h / n) + Times(n, k);
    Quotient(h + Times(n, k), n, h / n + k, h % n);
  }

  // ----- Every bucket is visited -----

  ghost function Below(n: nat): (r: set<int>)
    ensures forall x :: x in r <==> 0 <= x < n
    ensures |r| == n
  {
    if n == 0 then {} else Below(n - 1) + {n - 1}
  }

  ghost function Visited(h: nat, n: nat, k: nat): set<int>
    requires n > 0
  {
    set t | 0 <= t < k :: Probe(h, n, t)
  }

  lemma {:induction false} VisitedSize(h: nat, m: nat, k: nat)
    requires k <= Pow2(m)
    ensures |Visited(h, Pow2(m), k)| == k
  {
    if k > 0 {
      var n := Pow2(m);
      VisitedSize(h, m, k - 1);
      forall t | 0 <= t < k - 1 ensures Probe(h, n, t) != Probe(h, n, k - 1) { ProbesApart(h, m, k - 1, t); }
      assert Visited(h, n, k) == Visited(h, n, k - 1) + {Probe(h, n, k - 1)};
    }
  }

  /** The first n positions visit every bucket. */
  lemma VisitsAll(h: nat, m: nat, x: nat)
    requires x < Pow2(m)
    ensures exists s: nat :: s < Pow2(m) && Probe(h, Pow2(m), s) == x
  {
    var n := Pow2(m);
    VisitedSize(h, m, n);
    SubsetFull(Visited(h, n, n), Below(n));
    assert x in Visited(h, n, n);
  }

  lemma SubsetFull(a: set<int>, b: set<int>)
    requires a <= b && |a| == |b|
    ensures a == b
  {
    forall x | x in b ensures x in a {
      if x !in a { SubsetSize(a, b - {x}); }
    }
  }

  lemma {:induction false} SubsetSize(a: set<int>, b: set<int>)
    requires a <= b
    ensures |a| <= |b|
    decreases |a|
  {
    if x: int :| x in a {
      SubsetSize(a - {x}, b - {x});
    } else {
      assert forall x :: x !in a;
      assert a == {};
    }
  }
}
