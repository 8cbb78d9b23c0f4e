/** Remainders, from the definition: uniqueness of quotients, and the step from one number to
    the next. */
module Arithmetic {
  lemma DivUnique(a: nat, n: nat, k: nat, m: nat)
    requires n > 0 && a == n * k + m && m < n
    ensures a % n == m
  {
    var j := a / n - k;
    assert n * j == m - a % n;
    if j >= 1 {
      assert n * j == n * (j - 1) + n;
    }
  }

  lemma ModStep(r: nat, n: nat)
    requires n > 0
    ensures (r + 1) % n == if r % n + 1 == n then 0 else r % n + 1
  {
    var k, m := r / n, r % n;
    if m + 1 == n {
      assert r + 1 == n * (k + 1);
      DivUnique(r + 1, n, k + 1, 0);
    } else {
      DivUnique(r + 1, n, k, m + 1);
    }
  }
}
