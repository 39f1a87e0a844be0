/**
 * An integer point on the plane with component-wise subtraction and a
 * distance. The source computes a floating-point Euclidean distance, but
 * every caller only compares it against 1.5, so the model keeps the exact
 * squared distance and states the comparison on it.
 */
module Points {

  datatype Point = Point(x: int, y: int)

  const Origin := Point(0, 0)

  function Abs(n: int): nat
  {
    if n < 0 then -n else n
  }

  /** `a - b`, coordinate by coordinate. */
  function Sub(a: Point, b: Point): (r: Point)
    ensures Point(r.x + b.x, r.y + b.y) == a
  {
    Point(a.x - b.x, a.y - b.y)
  }

  /** The square of the Euclidean distance between `a` and `b`. */
  function SqDist(a: Point, b: Point): (r: nat)
    ensures r == 0 <==> a == b
  {
    var dx := a.x - b.x;
    var dy := a.y - b.y;
    SquareZero(dx);
    SquareZero(dy);
    dx * dx + dy * dy
  }

  /** The number of unit steps of a king move from `a` to `b`: max(|dx|, |dy|). */
  function Chebyshev(a: Point, b: Point): (r: nat)
    ensures Abs(a.x - b.x) <= r && Abs(a.y - b.y) <= r
    ensures r == Abs(a.x - b.x) || r == Abs(a.y - b.y)
  {
    var dx := Abs(a.x - b.x);
    var dy := Abs(a.y - b.y);
    if dx < dy then dy else dx
  }

  /**
   * `distance(a, b) > 1.5`: the square root is monotone, so this is
   * `SqDist > 2.25`, which for an integer squared distance means `SqDist > 2`.
   */
  predicate FarApart(a: Point, b: Point)
  {
    SqDist(a, b) > 2
  }

  /** A step from `a` to `b` changes both coordinates. */
  predicate Diagonal(a: Point, b: Point)
  {
    a.x != b.x && a.y != b.y
  }

  lemma SquareZero(n: int)
    ensures n * n >= 0
    ensures n * n == 0 <==> n == 0
  {
    if n != 0 {
      if n > 0 {
        assert n * n >= n;
      } else {
        assert n * n >= -n;
      }
    }
  }

  lemma SquareAtMostOne(n: int)
    requires Abs(n) <= 1
    ensures n * n <= 1
  {
  }

  lemma SquareAtLeastFour(n: int)
    requires Abs(n) >= 2
    ensures n * n >= 4
  {
    if n >= 2 {
      assert n * n >= 2 * n;
    } else {
      assert n * n >= -2 * n;
    }
  }

  /** A king-move distance of zero means the points coincide. */
  lemma ChebyshevZeroIff(a: Point, b: Point)
    ensures Chebyshev(a, b) == 0 <==> a == b
  {
  }

  /** Subtracting a point from itself yields the origin. */
  lemma SubSelf(a: Point)
    ensures Sub(a, a) == Origin
  {
  }

  /** Swapping the operands of a subtraction negates both components. */
  lemma SubAntisymmetric(a: Point, b: Point)
    ensures Sub(b, a) == Point(-Sub(a, b).x, -Sub(a, b).y)
  {
  }

  /** The distance is symmetric. */
  lemma SqDistSymmetric(a: Point, b: Point)
    ensures SqDist(a, b) == SqDist(b, a)
  {
    assert (a.x - b.x) * (a.x - b.x) == (b.x - a.x) * (b.x - a.x);
    assert (a.y - b.y) * (a.y - b.y) == (b.y - a.y) * (b.y - a.y);
  }

  /** The distance of `a` and `b` is the length of the vector `a - b`. */
  lemma SqDistIsLengthOfDifference(a: Point, b: Point)
    ensures SqDist(a, b) == SqDist(Sub(a, b), Origin)
  {
  }

  /**
   * `distance(a, b) > 1.5` holds exactly when the points are not king-move
   * neighbours: some coordinate differs by two or more.
   */
  lemma {:induction false} FarApartIffNotNeighbours(a: Point, b: Point)
    ensures FarApart(a, b) <==> Chebyshev(a, b) >= 2
  {
    var dx := a.x - b.x;
    var dy := a.y - b.y;
    SquareZero(dx);
    SquareZero(dy);
    if Abs(dx) <= 1 && Abs(dy) <= 1 {
      SquareAtMostOne(dx);
      SquareAtMostOne(dy);
    } else if Abs(dx) >= 2 {
      SquareAtLeastFour(dx);
    } else {
      SquareAtLeastFour(dy);
    }
  }

  /** The distances the source's unit tests expect, squared. */
  lemma DistanceExamples()
    ensures SqDist(Point(1, 1), Point(1, 2)) == 1
    ensures SqDist(Point(0, 1), Point(-1, 1)) == 1
    ensures SqDist(Point(1, 1), Point(2, 2)) == 2
    ensures SqDist(Point(0, 0), Point(2, 3)) == 13
  {
    VerticalNeighbourDistance();
    HorizontalNeighbourDistance();
    DiagonalNeighbourDistance();
    FarPairDistance();
  }

  lemma VerticalNeighbourDistance()
    ensures SqDist(Point(1, 1), Point(1, 2)) == 1
  {
  }

  lemma HorizontalNeighbourDistance()
    ensures SqDist(Point(0, 1), Point(-1, 1)) == 1
  {
  }

  lemma DiagonalNeighbourDistance()
    ensures SqDist(Point(1, 1), Point(2, 2)) == 2
  {
  }

  lemma FarPairDistance()
    ensures SqDist(Point(0, 0), Point(2, 3)) == 13
  {
  }

  /** A diagonal neighbour (distance about 1.414) is not far apart. */
  lemma DiagonalNeighbourIsClose()
    ensures !FarApart(Point(1, 1), Point(2, 2))
  {
    DiagonalNeighbourDistance();
  }

  /** The pair at distance about 3.606 is far apart. */
  lemma DistantPairIsFar()
    ensures FarApart(Point(0, 0), Point(2, 3))
  {
    FarPairDistance();
  }
}
