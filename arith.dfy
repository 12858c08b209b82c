/** Facts about Euclidean division by a positive divisor, which agrees with Python's `//`
    whenever the divisor is positive. */
module DivArith {

  lemma MulMonotone(x: int, y: int, n: nat)
    requires x <= y
    ensures x * n <= y * n
  {
    assert y * n - x * n == (y - x) * n;
  }

  /** Quotient and remainder are determined by any decomposition `a == q * n + m`. */
  lemma DivUnique(a: int, n: int, q: int, m: int)
    requires n > 0 && 0 <= m < n && a == q * n + m
    ensures a / n == q && a % n == m
  {
    var q', m' := a / n, a % n;
    assert q' * n + m' == a;
    assert (q - q') * n == m' - m;
    if q' < q {
      MulMonotone(1, q - q', n);
      assert false;
    } else if q < q' {
      MulMonotone(1, q' - q, n);
      assert false;
    }
  }

  lemma DivMonotone(a: int, b: int, n: int)
    requires n > 0 && a <= b
    ensures a / n <= b / n
  {
    var qa, qb := a / n, b / n;
    assert (qa - qb) * n == a - a % n - (b - b % n);
    if qa > qb {
      MulMonotone(1, qa - qb, n);
      assert false;
    }
  }

  /** Adding a whole number of divisors adds exactly that many to the quotient. */
  lemma DivAddMultiple(a: int, q: int, n: int)
    requires n > 0
    ensures (a + q * n) / n == a / n + q
  {
    DivUnique(a + q * n, n, a / n + q, a % n);
    assert (a / n + q) * n == (a / n) * n + q * n;
  }

  /** Adding less than one divisor raises the quotient by at most one. */
  lemma DivAddSmall(a: int, r: int, n: int)
    requires n > 0 && 0 <= r < n
    ensures (a + r) / n == a / n || (a + r) / n == a / n + 1
  {
    var m := a % n + r;
    if m < n {
      DivUnique(a + r, n, a / n, m);
    } else {
      DivUnique(a + r, n, a / n + 1, m - n);
      assert (a / n + 1) * n == (a / n) * n + n;
    }
  }

  /** `x * n / n == x`. */
  lemma DivMulCancel(x: int, n: int)
    requires n > 0
    ensures x * n / n == x
  {
    DivUnique(x * n, n, x, 0);
  }
}
