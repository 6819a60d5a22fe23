/** The products of real numbers that the statistics need, one small step each. */
module RealArithmetic {
  lemma OneMore(n: real, c: real)
    ensures (n + 1.0) * c == n * c + c
  {
  }

  lemma TimesZero(n: real, c: real)
    requires n == 0.0
    ensures n * c == 0.0
  {
  }

  lemma DistributeOver(d: real, a: real, b: real)
    ensures d * (a + b) == d * a + d * b
  {
  }

  lemma Scale(x: real, y: real, k: real)
    requires x <= y && k >= 0.0
    ensures k * x <= k * y
  {
  }

  lemma ScaleStrictly(x: real, y: real, k: real)
    requires x < y && k > 0.0
    ensures k * x < k * y
  {
  }

  lemma Cancel(x: real, y: real, k: real)
    requires k > 0.0 && k * x <= k * y
    ensures x <= y
  {
    if x > y {
      ScaleStrictly(y, x, k);
    }
  }

  lemma CancelStrictly(x: real, y: real, k: real)
    requires k > 0.0 && k * x < k * y
    ensures x < y
  {
    if x >= y {
      Scale(y, x, k);
    }
  }

  lemma CancelEqual(x: real, y: real, k: real)
    requires k > 0.0 && k * x == k * y
    ensures x == y
  {
    Cancel(x, y, k);
    Cancel(y, x, k);
  }

  lemma QuotientTimes(a: real, n: real)
    requires n != 0.0
    ensures a / n * n == a && n * (a / n) == a
  {
  }

  lemma SquareOfSum(a: real, b: real)
    ensures (a + b) * (a + b) == a * a + 2.0 * (a * b) + b * b
    ensures (a - b) * (a - b) == a * a - 2.0 * (a * b) + b * b
  {
  }

  lemma Regroup(a: real, b: real, c: real)
    ensures a * (b * c) == b * (a * c) == (a * b) * c == c * (a * b)
  {
  }

  lemma SquareOfProduct(a: real, b: real)
    ensures (a * b) * (a * b) == (a * a) * (b * b)
  {
    Regroup(a * b, a, b);
    Regroup(a, a, b);
    Regroup(a * a, b, b);
  }

  lemma NonNegativeSquare(a: real)
    ensures a * a >= 0.0
  {
  }

  lemma TwiceProduct(d: real, u: real)
    ensures 2.0 * (d * u) <= u * u + d * d
  {
    SquareOfSum(u, d);
    NonNegativeSquare(u - d);
  }

  lemma PositiveSquare(a: real)
    requires a != 0.0
    ensures a * a > 0.0
  {
    var b := if a > 0.0 then a else -a;
    ScaleStrictly(0.0, b, b);
    assert b * b == a * a;
  }

  /** Squaring keeps the order of numbers that are not negative. */
  lemma SquaresInOrder(a: real, b: real)
    requires 0.0 <= b < a
    ensures a * a > b * b
  {
    SquareOfSum(a, b);
    ScaleStrictly(0.0, a - b, a + b);
  }

  lemma PositiveProduct(a: real, b: real, v: real)
    requires a > 0.0 && b > 0.0 && v == a * b
    ensures v > 0.0
  {
    ScaleStrictly(0.0, b, a);
  }
}
