/** The remainders that circular structures count with. */
module Modulo {

  lemma Multiple(d: int, n: int)
    requires n > 0
    ensures d >= 1 ==> d * n >= n
    ensures d <= -1 ==> d * n <= -n
    ensures d == 0 ==> d * n == 0
  {
  }

  lemma ModIs(a: nat, n: nat, q: nat, r: nat)
    requires n > 0 && r < n && a == q * n + r
    ensures a % n == r
  {
    var p, d := a / n, a / n - q;
    assert a == p * n + a % n;
    assert p * n - q * n == d * n;
    Multiple(d, n);
  }

  lemma ModSmall(r: nat, n: nat)
    requires r < n
    ensures r % n == r
  {
  }

  /** Up to n further on, a remainder wraps around at most once. */
  lemma ModPlus(a: nat, d: nat, n: nat)
    requires d <= n && n > 0
    ensures a % n < n && (a + d) % n == if a % n + d < n then a % n + d else a % n + d - n
  {
    var q, r := a / n, a % n;
    assert a == q * n + r && (q + 1) * n == q * n + n;
    if r + d < n {
      ModIs(a + d, n, q, r + d);
    } else {
      ModIs(a + d, n, q + 1, r + d - n);
    }
  }
}
