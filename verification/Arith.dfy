/** Division with remainder by a variable, for cyclic positions. */
module Arith {
  lemma AtLeastOnce(k: int, n: int)
    requires k >= 1 && n > 0
    ensures k * n >= n
  {
  }

  lemma RemainderIs(x: int, q: int, r: int, n: int)
    requires 0 <= r < n && x == q * n + r
    ensures x % n == r && x / n == q
  {
    QuotientUnique(q, r, x / n, x % n, n);
  }

  lemma QuotientUnique(q: int, r: int, d: int, m: int, n: int)
    requires 0 <= r < n && 0 <= m < n && q * n + r == d * n + m
    ensures q == d && r == m
  {
    assert (q - d) * n == m - r && (d - q) * n == r - m;
    if q > d {
      AtLeastOnce(q - d, n);
    }
    if q < d {
      AtLeastOnce(d - q, n);
    }
  }

  lemma AddMultiple(x: int, k: int, n: int)
    requires n > 0
    ensures (x + k * n) % n == x % n
  {
    assert x == (x / n) * n + x % n;
    assert x + k * n == (x / n + k) * n + x % n;
    RemainderIs(x + k * n, x / n + k, x % n, n);
  }

  /** A remainder can be taken before or after adding. */
  lemma AddRemainder(x: int, y: int, n: int)
    requires n > 0
    ensures (x % n + y) % n == (x + y) % n
  {
    assert x == (x / n) * n + x % n;
    AddMultiple(x % n + y, x / n, n);
    assert x % n + y + (x / n) * n == x + y;
  }

  /** n divided by d, rounded up. */
  function CeilDiv(n: nat, d: nat): (k: nat)
    requires d > 0
    ensures k * d >= n
    ensures n > 0 ==> (k - 1) * d < n
  {
    assert n + d - 1 == ((n + d - 1) / d) * d + (n + d - 1) % d;
    (n + d - 1) / d
  }

  lemma MultiplyMonotone(x: int, y: int, d: nat)
    ensures x <= y ==> x * d <= y * d
  {
  }

  lemma CeilDivMonotone(n: nat, m: nat, d: nat)
    requires d > 0 && n <= m
    ensures CeilDiv(n, d) <= CeilDiv(m, d)
  {
    MultiplyMonotone(CeilDiv(m, d), CeilDiv(n, d) - 1, d);
    hide CeilDiv;
  }
}
