/** Division and remainder by a positive variable, as far as counting round a circle needs them. */
module Cyclic {

  lemma {:induction false} MultipleIsFar(d: nat, n: nat)
    requires d > 0
    ensures d * n >= n
    decreases d
  {
    if d <= 1 {
    } else {
      MultipleIsFar(d - 1, n);
      assert d * n == (d - 1) * n + n;
    }
  }

  lemma DivModUnique(x: int, q: int, r: int, n: int)
    requires 0 <= r < n && x == q * n + r
    ensures x / n == q && x % n == r
  {
    var d, m := x / n, x % n;
    assert x == d * n + m;
    assert (d - q) * n == d * n - q * n && (q - d) * n == q * n - d * n;
    if d > q {
      MultipleIsFar(d - q, n);
    } else if d < q {
      MultipleIsFar(q - d, n);
    }
  }

  /** The first number from `k` on that leaves this remainder. */
  lemma NextWithRemainder(k: nat, n: nat, r: nat) returns (i: nat)
    requires r < n
    ensures k <= i < k + n && i % n == r
  {
    var q, p := k / n, k % n;
    assert k == q * n + p;
    if p <= r {
      i := k + (r - p);
      DivModUnique(i, q, r, n);
    } else {
      i := k + (n - p) + r;
      assert (q + 1) * n == q * n + n;
      DivModUnique(i, q + 1, r, n);
    }
  }

  /** One step further: either the remainder grows by one or a new lap begins. */
  lemma DivModStep(x: int, n: int)
    requires n > 0
    ensures if x % n + 1 < n
            then (x + 1) / n == x / n && (x + 1) % n == x % n + 1
            else (x + 1) / n == x / n + 1 && (x + 1) % n == 0
  {
    var q, r := x / n, x % n;
    assert x == q * n + r;
    if r + 1 < n {
      DivModUnique(x + 1, q, r + 1, n);
    } else {
      assert (q + 1) * n == q * n + n;
      DivModUnique(x + 1, q + 1, 0, n);
    }
  }

  lemma ModAdd(x: int, y: int, n: int)
    requires n > 0
    ensures (x % n + y) % n == (x + y) % n
  {
    var q, z := x / n, x % n + y;
    assert x == q * n + x % n;
    assert z == (z / n) * n + z % n;
    assert (q + z / n) * n == q * n + (z / n) * n;
    DivModUnique(x + y, q + z / n, z % n, n);
  }
}
