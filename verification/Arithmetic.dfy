/** The two nonlinear facts the models lean on. */
module Arithmetic {

  lemma MulGap(a: int, b: int, m: nat)
    ensures a < b ==> a * m + m <= b * m
    ensures a <= b ==> a * m <= b * m
  {
    if a < b {
      assert (a + 1) * m <= b * m;
    }
  }

  lemma ExactQuotient(n: nat, d: nat)
    requires d > 0
    ensures n * d / d == n && n * d % d == 0
  {
    var q, r := n * d / d, n * d % d;
    assert n * d == q * d + r;
    MulGap(q, n, d);
    MulGap(n, q, d);
  }
}
