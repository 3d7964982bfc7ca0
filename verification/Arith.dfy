/** Small non-linear facts that several modules need. */
module Arith {

  lemma MulAtLeast(d: int, n: int)
    requires d >= 1 && n >= 0
    ensures d * n >= n
  {
    assert d * n == (d - 1) * n + n;
  }

  lemma QuotientUnique(n: int, q: int, r: int, q': int, r': int)
    requires 0 <= r < n && 0 <= r' < n
    requires q * n + r == q' * n + r'
    ensures q == q' && r == r'
  {
    var d := q - q';
    assert d * n == q * n - q' * n;
    if d >= 1 {
      MulAtLeast(d, n);
    } else if d <= -1 {
      MulAtLeast(-d, n);
    }
  }

  lemma QuotientNext(x: int, n: int)
    requires n >= 1
    ensures (x + n) / n == x / n + 1
  {
    var q, r := x / n, x % n;
    assert x == q * n + r;
    assert (q + 1) * n == q * n + n;
    QuotientOf(x + n, n, q + 1, r);
  }

  lemma QuotientOf(x: int, n: int, q: int, r: int)
    requires x == q * n + r && 0 <= r < n
    ensures x / n == q && x % n == r
  {
    assert x == (x / n) * n + x % n;
    QuotientUnique(n, q, r, x / n, x % n);
  }
}
