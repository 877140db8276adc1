/** Products, quotients and remainders of natural numbers. */
module Arithmetic {
  lemma MulLe(a: nat, b: nat, m: nat)
    requires a <= b
    ensures a * m <= b * m
  {
  }

  lemma RowBelow(a: nat, b: nat, m: nat)
    requires a < b
    ensures 0 <= a * m && a * m + m <= b * m
  {
    assert a * m + m == (a + 1) * m;
    MulLe(a + 1, b, m);
  }

  lemma DivBelow(a: nat, n: nat, m: nat)
    requires m > 0 && a < n * m
    ensures a / m < n && a % m < m && a == (a / m) * m + a % m
  {
    if a / m >= n {
      MulLe(n, a / m, m);
    }
  }

  lemma SameDivMod(a: nat, b: nat, m: nat)
    requires m > 0 && a / m == b / m && a % m == b % m
    ensures a == b
  {
    assert a == (a / m) * m + a % m;
    assert b == (b / m) * m + b % m;
  }

  lemma DivModUnique(x: nat, m: nat, q: nat, r: nat)
    requires m > 0 && r < m && x == q * m + r
    ensures x / m == q && x % m == r
  {
    assert x - r == q * m;
    if x / m < q {
      RowBelow(x / m, q, m);
    } else if q < x / m {
      RowBelow(q, x / m, m);
    }
  }
}
