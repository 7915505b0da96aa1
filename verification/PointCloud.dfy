/** Points in space and squared Euclidean distance, over the reals. */
module PointCloud {
  datatype Point = Point(x: real, y: real, z: real)

  /** Multiplication with its sign rules stated, so that proofs need not search for
      them. */
  function Times(a: real, b: real): (r: real)
    ensures 0.0 < a && 0.0 < b ==> 0.0 < r
    ensures a < 0.0 && b < 0.0 ==> 0.0 < r
    ensures a == 0.0 || b == 0.0 ==> r == 0.0
  {
    a * b
  }

  function SquareOf(a: real): (r: real)
    ensures 0.0 <= r
    ensures r == 0.0 <==> a == 0.0
  {
    Times(a, a)
  }

  function Squared(p: Point): (r: real)
    ensures 0.0 <= r
    ensures r == 0.0 <==> p == Point(0.0, 0.0, 0.0)
  {
    SquareOf(p.x) + SquareOf(p.y) + SquareOf(p.z)
  }

  function Minus(p: Point, q: Point): (r: Point)
    ensures r == Point(0.0, 0.0, 0.0) <==> p == q
  {
    Point(p.x - q.x, p.y - q.y, p.z - q.z)
  }

  function Distance2(p: Point, q: Point): (r: real)
    ensures 0.0 <= r
    ensures r == 0.0 <==> p == q
  {
    Squared(Minus(p, q))
  }

  lemma ParallelogramReal(a: real, b: real, c: real)
    ensures SquareOf(a - b) <= 2.0 * SquareOf(a - c) + 2.0 * SquareOf(b - c)
  {
    var u, v := a - c, b - c;
    assert a - b == u - v;
    assert (u - v) * (u - v) + (u + v) * (u + v) == 2.0 * (u * u) + 2.0 * (v * v);
    assert SquareOf(u - v) + SquareOf(u + v) == 2.0 * SquareOf(u) + 2.0 * SquareOf(v);
  }

  /** The squared form of the triangle inequality. */
  lemma Parallelogram(p: Point, q: Point, c: Point)
    ensures Distance2(p, q) <= 2.0 * Distance2(p, c) + 2.0 * Distance2(q, c)
  {
    hide SquareOf;
    ParallelogramReal(p.x, q.x, c.x);
    ParallelogramReal(p.y, q.y, c.y);
    ParallelogramReal(p.z, q.z, c.z);
  }

  /** The squared Euclidean distance, written out. */
  function Euclidean2(p: Point, q: Point): real {
    (p.x - q.x) * (p.x - q.x) + (p.y - q.y) * (p.y - q.y) + (p.z - q.z) * (p.z - q.z)
  }

  lemma DistanceIsEuclidean(p: Point, q: Point)
    ensures Distance2(p, q) == Euclidean2(p, q)
    ensures Squared(p) == p.x * p.x + p.y * p.y + p.z * p.z
  {
  }
}
