/** Products and quotients of integers, in the order the solver can follow. */
module Products {

  lemma MulLeq(a: int, b: int, c: nat)
    requires a <= b
    ensures a * c <= b * c
  {
    assert (b - a) * c >= 0;
  }

  lemma MulStep(a: int, b: int, c: nat)
    requires a < b
    ensures a * c + c <= b * c
  {
    MulLeq(a + 1, b, c);
    assert (a + 1) * c == a * c + c;
  }

  /** The quotient and remainder of i == q * d + r. */
  lemma Quotient(i: int, d: nat, q: int, r: int)
    requires d > 0 && i == q * d + r && 0 <= r < d
    ensures i / d == q && i % d == r
  {
    var k, s := i / d, i % d;
    assert i == k * d + s;
    if k < q { MulStep(k, q, d); }
    if q < k { MulStep(q, k, d); }
  }
}
