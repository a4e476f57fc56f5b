/** Multiples and quotients. */
module Arithmetic {
  lemma DivMod(n: nat, d: nat, q: nat, r: nat)
    requires n == d * q + r && r < d
    ensures n / d == q && n % d == r
  {
    var q', r' := n / d, n % d;
    assert d * q' + r' == d * q + r;
    if q' < q {
      assert d * q == d * q' + d * (q - q');
      AtLeast(d, q - q');
    } else if q' > q {
      assert d * q' == d * q + d * (q' - q);
      AtLeast(d, q' - q);
    }
  }

  lemma AtLeast(d: nat, k: nat)
    requires k > 0
    ensures d * k >= d
  {
    assert d * k == d + d * (k - 1);
    assert d * (k - 1) >= 0;
  }
}
