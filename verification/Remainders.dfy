/** Remainders by a positive number. */
module Remainders {
  lemma LargeMultiple(k: int, m: int)
    requires m > 0
    ensures k >= 1 ==> k * m >= m
    ensures k <= -1 ==> k * m <= -m
  {
    if k >= 1 {
      assert (k - 1) * m >= 0;
    } else if k <= -1 {
      assert (-1 - k) * m >= 0;
    }
  }

  lemma SmallMultiple(k: int, m: int)
    requires -m < k * m < m
    ensures k == 0
  {
    LargeMultiple(k, m);
  }

  lemma RemainderIs(x: int, m: int, q: int, r: int)
    requires 0 <= r < m && x == q * m + r
    ensures x % m == r
  {
    var p := x / m;
    assert x == p * m + x % m;
    assert (p - q) * m == p * m - q * m;
    SmallMultiple(p - q, m);
  }

  lemma SameRemainder(x: int, m: int, q: int)
    requires m > 0
    ensures (x + q * m) % m == x % m
  {
    var p := x / m;
    assert x == p * m + x % m;
    assert (p + q) * m == p * m + q * m;
    RemainderIs(x + q * m, m, p + q, x % m);
  }

  lemma CloseMultiples(j: int, k: int, m: int)
    requires -m < j * m - k * m < m
    ensures j == k
  {
    assert (j - k) * m == j * m - k * m;
    SmallMultiple(j - k, m);
  }

  lemma IsMultiple(x: int, m: int)
    requires m > 0 && x % m == 0
    ensures x == x / m * m
  {
  }
}
