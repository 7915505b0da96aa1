/** Euclidean length.  The square root is a parameter: any function whose values are
    non-negative and square to the squared length will do. */
module Length {
  import opened PointCloud

  type LengthFunction = Point -> real

  ghost predicate IsLength(len: LengthFunction) {
    forall v: Point :: 0.0 <= len(v) && SquareOf(len(v)) == Squared(v)
  }

  function Plus(p: Point, q: Point): Point {
    Point(p.x + q.x, p.y + q.y, p.z + q.z)
  }

  function Scale(v: Point, k: real): Point {
    Point(Times(v.x, k), Times(v.y, k), Times(v.z, k))
  }

  lemma SquareOfProduct(x: real, k: real)
    ensures SquareOf(Times(x, k)) == Times(SquareOf(x), SquareOf(k))
  {
    var p := x * k;
    assert p * p == (x * x) * (k * k);
  }

  lemma SquaredScale(v: Point, k: real)
    ensures Squared(Scale(v, k)) == Times(Squared(v), SquareOf(k))
  {
    SquareOfProduct(v.x, k);
    SquareOfProduct(v.y, k);
    SquareOfProduct(v.z, k);
    var x, y, z, s := SquareOf(v.x), SquareOf(v.y), SquareOf(v.z), SquareOf(k);
    assert Times(x, s) + Times(y, s) + Times(z, s) == Times(x + y + z, s);
  }

  lemma EqualSquares(a: real, b: real)
    requires 0.0 <= a && 0.0 <= b && SquareOf(a) == SquareOf(b)
    ensures a == b
  {
    assert Times(a - b, a + b) == SquareOf(a) - SquareOf(b);
    assert Times(b - a, a + b) == SquareOf(b) - SquareOf(a);
    assert a < b && 0.0 < a + b ==> 0.0 < Times(b - a, a + b);
    assert b < a && 0.0 < a + b ==> 0.0 < Times(a - b, a + b);
  }

  lemma LengthOfScale(len: LengthFunction, v: Point, k: real)
    requires IsLength(len) && 0.0 <= k
    ensures len(Scale(v, k)) == Times(len(v), k)
  {
    SquaredScale(v, k);
    SquareOfProduct(len(v), k);
    assert SquareOf(len(v)) == Squared(v);
    assert SquareOf(len(Scale(v, k))) == Squared(Scale(v, k));
    TimesNonNegative(len(v), k);
    EqualSquares(len(Scale(v, k)), Times(len(v), k));
  }

  lemma TimesNonNegative(a: real, b: real)
    requires 0.0 <= a && 0.0 <= b
    ensures 0.0 <= Times(a, b)
  {
  }

  lemma Requotient(a: real, b: real)
    requires 0.0 < b
    ensures Times(b, a / b) == a
    ensures 0.0 <= a ==> 0.0 <= a / b
  {
    var q := a / b;
    assert q * b == a;
  }

  /** Rescaling a non-zero vector to a chosen length. */
  lemma LengthOfRescale(len: LengthFunction, v: Point, target: real)
    requires IsLength(len) && 0.0 < len(v) && 0.0 <= target
    ensures len(Scale(v, target / len(v))) == target
  {
    Requotient(target, len(v));
    LengthOfScale(len, v, target / len(v));
  }

  lemma PlusMinus(p: Point, v: Point)
    ensures Minus(Plus(p, v), p) == v
  {
  }
}
