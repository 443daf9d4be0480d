/** Small facts about products and quotients of reals, proved apart so that the proofs
    that use them never reason about nonlinear terms. */
module RealArithmetic {
  function Abs(x: real): real {
    if x < 0.0 then -x else x
  }

  function Max(a: real, b: real): real {
    if a >= b then a else b
  }

  function Min(a: real, b: real): real {
    if a <= b then a else b
  }

  /** The product under a name, so that a proof can hide it and see only linear terms. */
  function Times(a: real, b: real): real {
    a * b
  }

  lemma TimesLaws(a: real, b: real, c: real)
    ensures Times(a, b) == Times(b, a)
    ensures Times(a, b + c) == Times(a, b) + Times(a, c)
    ensures Times(a, b - c) == Times(a, b) - Times(a, c)
    ensures Times(a, Times(b, c)) == Times(Times(a, b), c)
    ensures Times(a, -b) == -Times(a, b) == Times(-a, b)
  {
  }

  lemma TimesZero(a: real)
    ensures Times(a, 0.0) == 0.0 == Times(0.0, a)
    ensures Times(a, 1.0) == a == Times(1.0, a)
  {
  }

  lemma TimesMinusOne(a: real)
    ensures Times(a, -1.0) == -a
  {
  }

  lemma ZeroProduct(a: real, b: real)
    requires a * b == 0.0
    ensures a == 0.0 || b == 0.0
  {
  }

  lemma ZeroFactor(a: real, b: real)
    requires b == 0.0
    ensures a * b == 0.0
  {
  }

  lemma NegativeFactor(a: real, b: real)
    ensures (-a) * b == -(a * b)
  {
  }

  lemma NegativeFactors(a: real, b: real)
    ensures (-a) * (-b) == a * b
  {
  }

  lemma SquareNonNegative(a: real)
    ensures a * a >= 0.0
  {
  }

  lemma ProductNonNegative(a: real, b: real)
    requires a >= 0.0 && b >= 0.0
    ensures a * b >= 0.0
  {
  }

  lemma ProductMonotone(a: real, b: real, c: real)
    requires a <= b && c >= 0.0
    ensures a * c <= b * c
  {
  }

  lemma ProductStrict(a: real, b: real, c: real)
    requires a < b && c > 0.0
    ensures a * c < b * c
  {
  }

  lemma UnitProduct(a: real, b: real)
    requires 0.0 <= a <= 1.0 && 0.0 <= b <= 1.0
    ensures 0.0 <= a * b <= 1.0
  {
    ProductNonNegative(a, b);
    calc <= {
      a * b;
      { ProductMonotone(a, 1.0, b); }
      1.0 * b;
      b;
      1.0;
    }
  }

  lemma QuotientTimes(a: real, b: real)
    requires b != 0.0
    ensures a / b * b == a
  {
  }

  lemma TimesQuotient(a: real, b: real)
    requires b != 0.0
    ensures (a * b) / b == a
  {
  }

  lemma QuotientNonNegative(a: real, b: real)
    requires a >= 0.0 && b > 0.0
    ensures a / b >= 0.0
  {
  }

  lemma QuotientMoves(x: real, y: real, z: real)
    requires y != 0.0
    ensures (x / y) * z == x * (z / y)
  {
    var q, p := x / y, z / y;
    QuotientTimes(x, y);
    QuotientTimes(z, y);
    assert q * (p * y) == (q * y) * p;
  }

  lemma QuotientTerm(x: real, y: real, z: real)
    requires y != 0.0
    ensures Times(x / y, z) == Times(x, z / y)
  {
    QuotientMoves(x, y, z);
  }
}
