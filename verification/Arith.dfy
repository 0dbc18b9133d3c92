/** The few facts of integer division the models share. */
module Arith {
  lemma MulGrows(k: int, n: int)
    requires k >= 1 && n > 0
    ensures k * n >= n
  {
    assert (k - 1) * n >= 0;
  }

  /** Quotient and remainder are the only pair that fits. */
  lemma DivModUnique(m: int, n: int, q: int, r: int)
    requires n > 0 && m == q * n + r && 0 <= r < n
    ensures m / n == q && m % n == r
  {
    var q', r' := m / n, m % n;
    assert m == n * q' + r';
    assert (q - q') * n == r' - r by {
      assert (q - q') * n == q * n - q' * n;
    }
    if q > q' {
      MulGrows(q - q', n);
    } else if q < q' {
      assert (q' - q) * n == -((q - q') * n);
      MulGrows(q' - q, n);
    }
  }

  lemma DivModStep(m: nat, n: nat)
    requires n > 0
    ensures (m + 1) / n == m / n + (if m % n == n - 1 then 1 else 0)
    ensures (m + 1) % n == (if m % n == n - 1 then 0 else m % n + 1)
  {
    var q, r := m / n, m % n;
    if r == n - 1 {
      assert m + 1 == (q + 1) * n;
      DivModUnique(m + 1, n, q + 1, 0);
    } else {
      DivModUnique(m + 1, n, q, r + 1);
    }
  }

  lemma ModSmall(m: nat, n: nat)
    requires m < n
    ensures m % n == m && m / n == 0
  {
    DivModUnique(m, n, 0, m);
  }
}
