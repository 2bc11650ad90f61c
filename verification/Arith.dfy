/** Facts about products, quotients and remainders. */
module Arith {

  lemma Multiples(a: nat, b: nat, n: nat)
    requires a <= b
    ensures a * n <= b * n
  {
  }

  lemma SameDigits(a: nat, b: nat, c: nat, d: nat, n: nat)
    requires a * n + b == c * n + d && b < n && d < n
    ensures a == c && b == d
  {
    if a < c {
      Multiples(a + 1, c, n);
    } else if c < a {
      Multiples(c + 1, a, n);
    }
  }

  lemma DigitsOf(k: nat, n: nat)
    requires 0 < n
    ensures k == k / n * n + k % n && 0 <= k / n && k % n < n
  {
  }

  lemma DivMod(a: nat, b: nat, n: nat)
    requires b < n
    ensures (a * n + b) / n == a && (a * n + b) % n == b
  {
    DigitsOf(a * n + b, n);
    SameDigits((a * n + b) / n, (a * n + b) % n, a, b, n);
  }

  lemma DigitBound(a: nat, b: nat, n: nat, m: nat)
    requires a < m && b < n
    ensures a * n + b < m * n
  {
    assert (a + 1) * n <= m * n;
    assert (a + 1) * n == a * n + n;
  }

  lemma QuotientBound(k: nat, n: nat, m: nat)
    requires 0 < n && k < m * n
    ensures k / n < m
  {
    DigitsOf(k, n);
    if k / n >= m {
      Multiples(m, k / n, n);
    }
  }

  lemma ModAdd(x: nat, m: nat, p: nat)
    requires 0 < p
    ensures (x + m * p) % p == x % p
  {
    DigitsOf(x, p);
    assert x + m * p == (x / p + m) * p + x % p;
    DivMod(x / p + m, x % p, p);
  }

  lemma SmallMod(x: nat, m: nat)
    requires x < m
    ensures x % m == x
  {
  }

  lemma QuotientAtLeast(k: nat, n: nat, m: nat)
    requires 0 < n && m * n <= k
    ensures m <= k / n
  {
    DigitsOf(k, n);
    if k / n < m {
      Multiples(k / n + 1, m, n);
    }
  }
}
