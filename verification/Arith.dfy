/** The little arithmetic the models need. */
module Arith {
  lemma AtLeast(d: int, n: int)
    requires n > 0
    ensures d >= 1 ==> d * n >= n
    ensures d <= -1 ==> d * n <= -n
  {
  }

  lemma ModUnique(x: int, q: int, r: int, n: int)
    requires 0 <= r < n && x == q * n + r
    ensures x % n == r
  {
    var Q, R := x / n, x % n;
    assert x == Q * n + R;
    assert (Q - q) * n == r - R;
    AtLeast(Q - q, n);
  }

  lemma NextIndex(k: nat, n: nat)
    requires n > 0
    ensures (k + 1) % n == if k % n + 1 == n then 0 else k % n + 1
  {
    var q, r := k / n, k % n;
    assert k == q * n + r;
    if r + 1 == n {
      assert (q + 1) * n == q * n + n;
      ModUnique(k + 1, q + 1, 0, n);
    } else {
      ModUnique(k + 1, q, r + 1, n);
    }
  }
}
