/** Nonlinear facts, each proved once: products in order, squares, and division
    rounded up.
 */
module Arithmetic {
  lemma MulLe(a: nat, b: nat, c: nat)
    requires a <= b
    ensures a * c <= b * c
  {
  }

  lemma Cancel(a: nat, b: nat, c: nat)
    requires a * c < b * c
    ensures a < b
  {
    if b <= a { MulLe(b, a, c); }
  }

  lemma SquareLe(a: nat, b: nat)
    requires a <= b
    ensures a * a <= b * b
  {
    MulLe(a, b, a);
    MulLe(a, b, b);
  }

  lemma SquareLt(a: nat, b: nat)
    requires a * a < b * b
    ensures a < b
  {
    if b <= a { SquareLe(b, a); }
  }

  /** n / m rounded up. */
  function Up(n: nat, m: nat): nat
    requires m > 0
  {
    (n + m - 1) / m
  }

  lemma ScaleLe(a: int, b: int, c: nat)
    requires a <= b
    ensures a * c <= b * c
  {
  }

  lemma Distribute(a: int, b: int, c: int)
    ensures (a + b) * c == a * c + b * c
  {
  }

  lemma DivIs(n: int, m: nat, q: int)
    requires m > 0 && q * m <= n < q * m + m
    ensures n / m == q
  {
    var p := n / m;
    Distribute(p, 1, m);
    Distribute(q, 1, m);
    assert p * m <= n < (p + 1) * m;
    if p < q { ScaleLe(p + 1, q, m); }
    if q < p { ScaleLe(q + 1, p, m); }
  }

  /** Up is the least k with n <= k * m. */
  lemma UpIs(n: nat, m: nat)
    requires m > 0
    ensures n <= Up(n, m) * m < n + m
  {
    var p := (n + m - 1) / m;
    assert p * m <= n + m - 1 < (p + 1) * m;
    assert (p + 1) * m == p * m + m;
  }

  lemma UpLe(n: nat, m: nat, k: nat)
    requires m > 0
    ensures Up(n, m) <= k <==> n <= k * m
  {
    UpIs(n, m);
    var p := Up(n, m);
    if p <= k {
      MulLe(p, k, m);
    } else {
      MulLe(k + 1, p, m);
      assert (k + 1) * m == k * m + m;
    }
  }

  lemma UpMono(a: nat, b: nat, m: nat)
    requires m > 0 && a <= b
    ensures Up(a, m) <= Up(b, m)
  {
    UpIs(b, m);
    UpLe(a, m, Up(b, m));
  }
}
