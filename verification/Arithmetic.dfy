/** Division facts the solver needs spelled out. */
module Arithmetic {

  /** Quotient and remainder are the only ones. */
  lemma DivModUnique(x: nat, q: nat, r: nat, n: nat)
    requires n > 0 && x == q * n + r && r < n
    ensures x / n == q && x % n == r
  {
    var d := x / n - q;
    assert d * n == (x / n) * n - q * n;
    assert x == (x / n) * n + x % n;
    if d != 0 {
      MultipleNotSmall(d, n);
      assert false;
    }
  }

  lemma MultipleNotSmall(d: int, n: int)
    requires d != 0 && n > 0
    ensures d * n >= n || d * n <= -n
  {
    if d > 0 {
      assert (d - 1) * n >= 0;
    } else {
      assert (-d - 1) * n >= 0;
    }
  }

  lemma ModSuccessor(x: nat, n: nat)
    requires n > 0
    ensures (x + 1) % n == if x % n + 1 < n then x % n + 1 else 0
  {
    var q, r := x / n, x % n;
    if r + 1 < n {
      DivModUnique(x + 1, q, r + 1, n);
    } else {
      DivModUnique(x + 1, q + 1, 0, n);
    }
  }

  lemma DivPlus(x: nat, n: nat)
    requires n > 0
    ensures (x + n) / n == x / n + 1
  {
    DivModUnique(x + n, x / n + 1, x % n, n);
  }
}
