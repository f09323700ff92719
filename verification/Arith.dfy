/** The few facts of nonlinear arithmetic that the other modules need. */
module Arith {

  function Max(a: nat, b: nat): nat {
    if a < b then b else a
  }

  lemma MulStep(a: nat, n: nat)
    ensures (a + 1) * n == a * n + n
  {
  }

  lemma MulMono(a: nat, b: nat, n: nat)
    requires a <= b
    ensures a * n <= b * n
  {
  }

  /** Multiplication leaves room for a remainder: w * n + r stays below v * n. */
  lemma MulRoom(w: nat, v: nat, n: nat)
    requires w < v
    ensures w * n + n <= v * n
  {
    MulStep(w, n);
    MulMono(w + 1, v, n);
  }

  /** a * d <= x is the same as a <= x / d. */
  lemma DivBound(a: nat, x: nat, d: nat)
    requires d > 0
    ensures a * d <= x <==> a <= x / d
  {
    var q, r := x / d, x % d;
    assert x == q * d + r;
    if a <= q {
      MulMono(a, q, d);
    } else {
      MulRoom(q, a, d);
    }
  }

  lemma DivFits(x: nat, d: nat)
    requires d > 0
    ensures x / d * d <= x < (x / d + 1) * d
  {
    DivBound(x / d, x, d);
    DivBound(x / d + 1, x, d);
  }

  lemma DivMono(a: nat, b: nat, d: nat)
    requires d > 0 && a <= b
    ensures a / d <= b / d
  {
    DivBound(a / d, a, d);
    DivBound(a / d, b, d);
  }
}
