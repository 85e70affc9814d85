/** The two-dimensional vector value type of the game, over exact reals. */
module Vector2 {
  import opened Outcomes
  import opened RealFacts

  datatype Vec = Vec(x: real, y: real)

  /** The default-constructed vector, `Vector2()`. */
  const Zero: Vec := Vec(0.0, 0.0)

  /** Component-wise sum; the zero vector is its identity on both sides. */
  function Add(a: Vec, b: Vec): (r: Vec)
    ensures a == Zero ==> r == b
    ensures b == Zero ==> r == a
  {
    Vec(a.x + b.x, a.y + b.y)
  }

  /** Component-wise difference: zero exactly between equal vectors, and
      subtracting the zero vector changes nothing. */
  function Sub(a: Vec, b: Vec): (r: Vec)
    ensures r == Zero <==> a == b
    ensures b == Zero ==> r == a
  {
    Vec(a.x - b.x, a.y - b.y)
  }

  /** Multiplication by a scalar: 1 is its identity, and a zero factor on
      either side gives the zero vector. */
  function Scale(v: Vec, k: real): (r: Vec)
    ensures k == 1.0 ==> r == v
    ensures k == 0.0 || v == Zero ==> r == Zero
  {
    Vec(v.x * k, v.y * k)
  }

  /** Division by a non-zero scalar (Python raises on a zero divisor): it is
      scaling by the reciprocal, and scaling back by k undoes it. */
  function Div(v: Vec, k: real): (r: Vec)
    requires k != 0.0
    ensures r == Scale(v, 1.0 / k)
    ensures Scale(r, k) == v
  {
    assert (v.x / k) * k == v.x && (v.y / k) * k == v.y;
    Vec(v.x / k, v.y / k)
  }

  /** x*x + y*y, the quantity whose square root is the vector's length;
      zero exactly for the zero vector. */
  function LengthSq(v: Vec): (r: real)
    ensures r >= 0.0
    ensures r == 0.0 <==> v == Zero
  {
    var p, q := v.x * v.x, v.y * v.y;
    SquareNonNegative(v.x, p);
    SquareNonNegative(v.y, q);
    p + q
  }

  /** `l` is the length of `v`: the non-negative square root of its squared
      length, which is what `math.sqrt(x*x + y*y)` returns. */
  predicate IsLength(v: Vec, l: real)
  {
    l >= 0.0 && l * l == LengthSq(v)
  }

  /** In-place `normalise`: divides both components by the length `len`
      (supplied, as math.sqrt would compute it). Dividing by a zero length
      raises ZeroDivisionError in Python. */
  function Normalise(v: Vec, len: real): (r: Outcome<Vec>)
    requires IsLength(v, len)
    ensures r.Err? ==> r.fault == ZeroDivision
    ensures r.Ok? ==> len != 0.0 && r.value == Div(v, len)
  {
    if len == 0.0 then Err(ZeroDivision)
    else Ok(Vec(v.x / len, v.y / len))
  }

  /** Normalising fails exactly on the zero vector; otherwise the result has
      unit length and points the same way: the original is the result
      stretched by the positive factor `len`. */
  lemma NormaliseUnit(v: Vec, len: real)
    requires IsLength(v, len)
    ensures Normalise(v, len).Err? <==> v == Zero
    ensures Normalise(v, len).Ok? ==> LengthSq(Normalise(v, len).value) == 1.0
    ensures Normalise(v, len).Ok? ==> len > 0.0 && Scale(Normalise(v, len).value, len) == v
  {
  }

  /** Length zero exactly for the zero vector. */
  lemma LengthZero(v: Vec, l: real)
    requires IsLength(v, l)
    ensures l == 0.0 <==> v == Zero
  {
    var t := l * l;
    SquareNonNegative(l, t);
    if l == 0.0 {
      assert t == 0.0 * 0.0;
    }
  }

  /** A vector has at most one length. */
  lemma LengthUnique(v: Vec, a: real, b: real)
    requires IsLength(v, a) && IsLength(v, b)
    ensures a == b
  {
    assert (a - b) * (a + b) == a * a - b * b == 0.0;
    if a + b != 0.0 {
      ZeroProduct(a - b, a + b);
    }
  }

  /** Dividing by the length leaves a vector of squared length one. */
  lemma UnitAfterDivision(v: Vec, len: real)
    requires IsLength(v, len) && len > 0.0
    ensures LengthSq(Vec(v.x / len, v.y / len)) == 1.0
  {
    var a, b := v.x / len, v.y / len;
    var sq := len * len;
    assert a * len == v.x && b * len == v.y;
    assert (a * a + b * b - 1.0) * sq == 0.0 by {
      calc {
        (a * a + b * b - 1.0) * sq;
        (a * len) * (a * len) + (b * len) * (b * len) - sq;
        v.x * v.x + v.y * v.y - sq;
        0.0;
      }
    }
    SquarePositive(len, sq);
    ZeroProduct(a * a + b * b - 1.0, sq);
  }

  /** Over the reals `(a + b) - b == a` and `(a - b) + b == a`; the
      difference is zero exactly between equal vectors. */
  lemma AddSubRoundTrip(a: Vec, b: Vec)
    ensures Sub(Add(a, b), b) == a
    ensures Add(Sub(a, b), b) == a
    ensures Sub(a, b) == Zero <==> a == b
  {
  }

  /** Scaling by one is the identity; scaling by zero, or scaling the zero
      vector, gives the zero vector. */
  lemma ScaleIdentities(v: Vec, k: real)
    ensures Scale(v, 1.0) == v
    ensures Scale(v, 0.0) == Zero
    ensures Scale(Zero, k) == Zero
  {
  }
}
