/** The little non-linear arithmetic the other modules need. */
module Arithmetic {

  lemma {:induction false} MulIsMonotone(a: nat, b: nat, n: nat)
    requires a <= b
    ensures a * n <= b * n
    ensures a < b ==> a * n + n <= b * n
  {
    if a < b {
      MulIsMonotone(a, b - 1, n);
      assert b * n == (b - 1) * n + n;
    }
  }

  lemma QuotientIsUnique(a: nat, n: nat, q: nat)
    requires n > 0 && q * n <= a < q * n + n
    ensures a / n == q
  {
    var d := a / n;
    assert a == d * n + a % n;
    if d < q {
      MulIsMonotone(d, q, n);
    } else if q < d {
      MulIsMonotone(q, d, n);
    }
  }

  lemma QuotientStep(m: nat, n: nat)
    requires n > 0
    ensures (m + n) / n == m / n + 1
  {
    var d := m / n;
    assert m == d * n + m % n;
    assert (d + 1) * n == d * n + n;
    QuotientIsUnique(m + n, n, d + 1);
  }

  lemma QuotientAtMost(a: nat, b: nat, n: nat)
    requires n > 0 && a <= b * n
    ensures a / n <= b
  {
    var d := a / n;
    assert a == d * n + a % n;
    if b < d {
      MulIsMonotone(b, d, n);
    }
  }
}
