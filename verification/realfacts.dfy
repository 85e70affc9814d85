/** Facts about real multiplication that the solver does not find on its own.
    Each names the product it speaks about (`t == a * b`), so that callers
    receive a plain fact about `t`. */
module RealFacts {

  /** A product of two positive reals is positive. */
  lemma ProductPositive(a: real, b: real, t: real)
    requires t == a * b && a > 0.0 && b > 0.0
    ensures t > 0.0
  {
  }

  /** The square of a non-zero real is positive. */
  lemma SquarePositive(a: real, t: real)
    requires t == a * a && a != 0.0
    ensures t > 0.0
  {
    if a > 0.0 {
      ProductPositive(a, a, t);
    } else {
      assert t == (-a) * (-a);
      ProductPositive(-a, -a, t);
    }
  }

  /** The square of any real is non-negative, and zero only for zero. */
  lemma SquareNonNegative(a: real, t: real)
    requires t == a * a
    ensures t >= 0.0
    ensures t == 0.0 ==> a == 0.0
  {
    if a != 0.0 {
      SquarePositive(a, t);
    } else {
      assert t == 0.0 * 0.0;
    }
  }

  /** Squaring is strictly increasing on the non-negative reals. */
  lemma SquareLess(l: real, c: real, p: real, q: real)
    requires 0.0 <= l < c && p == l * l && q == c * c
    ensures p < q
  {
    var d := q - p;
    assert d == (c - l) * (c + l);
    ProductPositive(c - l, c + l, d);
  }

  /** Squaring is monotone on the non-negative reals. */
  lemma SquareAtMost(c: real, l: real, q: real, p: real)
    requires 0.0 <= c <= l && q == c * c && p == l * l
    ensures q <= p
  {
  }

  /** A product is zero only if a factor is. */
  lemma ZeroProduct(a: real, b: real)
    requires a * b == 0.0 && b != 0.0
    ensures a == 0.0
  {
  }
}
