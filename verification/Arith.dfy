/** Facts about products and quotients that the other modules need in one step. */
module Arith {
  function Min(a: int, b: int): (r: int)
    ensures r <= a && r <= b && (r == a || r == b)
  {
    if a <= b then a else b
  }

  function Max(a: int, b: int): (r: int)
    ensures r >= a && r >= b && (r == a || r == b)
  {
    if a >= b then a else b
  }

  lemma MulLe(a: int, b: int, c: nat)
    ensures a <= b ==> a * c <= b * c
  {}

  lemma MulStep(a: int, b: int)
    ensures (a + 1) * b == a * b + b
  {}

  /** Quotient and remainder are determined by the decomposition. */
  lemma DivModUnique(n: int, q: int, r: int, b: nat)
    requires b > 0 && n == q * b + r && 0 <= r < b
    ensures n / b == q && n % b == r
  {
    var p := n / b;
    assert n == b * p + n % b;
    MulLe(q + 1, p, b);
    MulLe(p + 1, q, b);
  }

  lemma DivModSplit(n: nat, b: nat)
    requires b > 0
    ensures n == (n / b) * b + n % b && 0 <= n % b < b
    ensures (n / b) * b <= n < (n / b) * b + b == (n / b + 1) * b
  {}

  /** The last multiple of b below n. */
  lemma MultipleBelow(n: nat, b: nat, q: nat)
    requires b > 0 && n > 0 && q == (n - 1) / b
    ensures q * b < n <= q * b + b && (q * b) % b == 0
  {
    DivModSplit(n - 1, b);
    DivModUnique(q * b, q, 0, b);
  }

  /** Rounding a quotient up. */
  lemma CeilDiv(n: nat, b: nat)
    requires b > 0
    ensures n <= ((n + b - 1) / b) * b < n + b
  {
    DivModSplit(n + b - 1, b);
  }
}
