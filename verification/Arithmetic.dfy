/** Division with remainder. */
module Arithmetic {
  /** A difference of multiples of n is smaller than n only if it is none. */
  lemma QuotientUnique(n: int, p: int, a: int, q: int, b: int)
    requires 0 <= a < n && 0 <= b < n && p * n + a == q * n + b
    ensures p == q && a == b
  {
    var d := p - q;
    assert d * n == b - a;
    assert d >= 1 ==> d * n >= n;
    assert d <= -1 ==> d * n <= -n;
  }

  lemma RemainderIs(x: int, n: int, q: int, r: int)
    requires n > 0 && 0 <= r < n && x == q * n + r
    ensures x % n == r
  {
    QuotientUnique(n, x / n, x % n, q, r);
  }

  /** The remainder of the next number. */
  lemma NextRemainder(x: nat, n: int)
    requires n > 0
    ensures (x + 1) % n == if x % n + 1 < n then x % n + 1 else 0
  {
    var q, r := x / n, x % n;
    if r + 1 < n {
      RemainderIs(x + 1, n, q, r + 1);
    } else {
      RemainderIs(x + 1, n, q + 1, 0);
    }
  }
}
