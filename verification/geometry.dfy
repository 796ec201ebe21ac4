/** Points of the plane and the distance between them.

    Every distance the robot uses is the Euclidean distance between two points,
    computed in Obstacles.py as the square root of the sum of squared coordinate
    differences. There is no square root over `real`, so the distance is a
    function the caller supplies; `IsDistance` states the two facts about it
    that the robot's behaviour depends on, and `IsEuclidean` ties it to the
    coordinates. */
module Geometry {

  datatype Point = Point(x: real, y: real)

  /** `dist` measures distance as the Euclidean distance does for everything
      the robot decides: it is never negative, and it is zero exactly between
      equal points. */
  ghost predicate IsDistance(dist: (Point, Point) -> real) {
    forall p, q :: dist(p, q) >= 0.0 && (dist(p, q) == 0.0 <==> p == q)
  }

  /** The squared Euclidean distance between `p` and `q`. */
  function SqDist(p: Point, q: Point): real {
    (p.x - q.x) * (p.x - q.x) + (p.y - q.y) * (p.y - q.y)
  }

  /** `dist` is the Euclidean distance: the non-negative root of `SqDist`. */
  ghost predicate IsEuclidean(dist: (Point, Point) -> real) {
    forall p, q :: dist(p, q) >= 0.0 && dist(p, q) * dist(p, q) == SqDist(p, q)
  }

  lemma MulPos(a: real, b: real)
    requires a > 0.0 && b > 0.0
    ensures a * b > 0.0
  {
  }

  lemma MulNonNeg(a: real, b: real)
    requires a >= 0.0 && b >= 0.0
    ensures a * b >= 0.0
  {
  }

  /** For a non-negative `a` and a positive `b`, comparing squares compares
      the numbers. */
  lemma SquareLess(a: real, b: real)
    requires a >= 0.0 && b > 0.0
    ensures a < b <==> a * a < b * b
  {
    calc {
      b * b - a * a;
    ==
      (b - a) * (b + a);
    }
    if a < b {
      MulPos(b - a, b + a);
    } else {
      MulNonNeg(a - b, a + b);
    }
  }

  function Max(a: real, b: real): real {
    if a >= b then a else b
  }

  function Abs(a: real): real {
    if a < 0.0 then -a else a
  }
}
