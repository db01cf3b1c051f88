// Division facts the solver does not find on its own, and powers of two.
module Arithmetic {

  function Pow2(n: nat): (p: nat)
    ensures p >= 1
  {
    if n == 0 then 1 else 2 * Pow2(n - 1)
  }

  lemma MulPositive(d: int, k: int)
    requires d > 0 && k >= 1
    ensures d * k >= d
  {}

  lemma Distribute(d: int, a: int, b: int)
    ensures d * (a - b) == d * a - d * b
    ensures d * (a + b) == d * a + d * b
  {}

  // The size of the j-th of count shares of a span, if the last takes what is left.
  lemma SizeWithin(span: nat, each: nat, count: nat, j: nat, before: nat)
    requires j < count && before + each <= span && (j == count - 1 ==> span < before + each + count)
    requires span > 0 ==> each >= 1
    requires span == 0 ==> count == 1
    ensures var size := (if j == count - 1 then span else before + each) - before - (if j == 0 then 0 else 1) + 1;
      each <= size <= each + count && size >= 1
  {}

  lemma DivMod(x: nat, d: nat)
    requires d > 0
    ensures x == d * (x / d) + x % d && 0 <= x % d < d
  {}

  // Quotient and remainder are unique.
  lemma DivUnique(x: int, d: int, q: int, r: int)
    requires d > 0 && 0 <= r < d
    requires x == d * q + r
    ensures x / d == q && x % d == r
  {
    var q' := x / d;
    var r' := x - d * q';
    assert 0 <= r' < d && r' == x % d;
    if q > q' {
      Distribute(d, q, q');
      MulPositive(d, q - q');
    } else if q < q' {
      Distribute(d, q', q);
      MulPositive(d, q' - q);
    }
  }

  // Dividing twice is dividing by the product.
  lemma DivDiv(x: nat, a: nat, b: nat)
    requires a > 0 && b > 0
    ensures a * b > 0
    ensures x / (a * b) == x / a / b
  {
    MulPositive(a, b);
    var q, r := x / a, x % a;
    var s, t := q / b, q % b;
    assert x == a * q + r && q == b * s + t;
    assert x == (a * b) * s + (a * t + r) by {
      Distribute(a, b * s, t);
      assert a * (b * s) == (a * b) * s;
    }
    assert a * t + r < a * b by {
      Distribute(a, b, t);
      MulPositive(a, b - t);
    }
    DivUnique(x, a * b, s, a * t + r);
  }

  lemma {:induction false} Pow2Add(a: nat, b: nat)
    ensures Pow2(a + b) == Pow2(a) * Pow2(b)
    decreases a
  {
    if a > 0 {
      Pow2Add(a - 1, b);
      assert Pow2(a) * Pow2(b) == 2 * (Pow2(a - 1) * Pow2(b));
    }
  }

  lemma {:induction false} Pow2Monotone(a: nat, b: nat)
    requires a <= b
    ensures Pow2(a) <= Pow2(b)
    ensures a < b ==> Pow2(a) < Pow2(b)
  {
    if a < b {
      Pow2Monotone(a, b - 1);
    }
  }
}
