/** Division with remainder, the one arithmetic fact the models share. */
module Arith {

  lemma MulMonotone(a: nat, b: nat, c: nat)
    requires a <= b
    ensures a * c <= b * c
  {
  }

  lemma DivModUnique(n: nat, d: nat, q: nat, r: nat)
    requires d >= 1 && n == q * d + r && r < d
    ensures n / d == q && n % d == r
  {
    var p := n / d;
    assert n == p * d + n % d;
    if q < p {
      MulMonotone(q + 1, p, d);
    } else if p < q {
      MulMonotone(p + 1, q, d);
    }
  }

  lemma CountOn(n: nat, d: nat)
    requires d >= 1
    ensures n % d == d - 1 ==> (n + 1) / d == n / d + 1 && (n + 1) % d == 0
    ensures n % d < d - 1 ==> (n + 1) / d == n / d && (n + 1) % d == n % d + 1
  {
    var q, r := n / d, n % d;
    assert n == q * d + r;
    if r == d - 1 {
      assert n + 1 == (q + 1) * d + 0;
      DivModUnique(n + 1, d, q + 1, 0);
    } else {
      DivModUnique(n + 1, d, q, r + 1);
    }
  }

  lemma QuotientBounded(n: nat, d: nat, limit: nat)
    requires d >= 1 && n < limit * d
    ensures n / d < limit
  {
    assert n == n / d * d + n % d;
    if limit <= n / d {
      MulMonotone(limit, n / d, d);
    }
  }

  /** Inside one raster pass, column and row determine the index. */
  lemma RasterIndex(n: nat, cols: nat, rows: nat)
    requires cols >= 1 && n < rows * cols
    ensures n == n / cols % rows * cols + n % cols
  {
    QuotientBounded(n, cols, rows);
    var q := n / cols;
    DivModUnique(q, rows, 0, q);
  }
}
