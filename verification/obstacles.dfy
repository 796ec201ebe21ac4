/** Obstacles in the robot's environment (class `Obstacles` of Obstacles.py). */
module Obstacles {
  import opened Geometry

  /** An obstacle at `position` whose reach is `size`. Obstacles.py does not check
      the size, so neither does the model. */
  datatype Obstacle = Obstacle(position: Point, size: real)

  /** The threshold `is_in_path` uses when its caller gives none. */
  const DefaultThreshold: real := 1.0

  /** A position is in the path of an obstacle when it is strictly closer to
      the obstacle than the obstacle's size plus the threshold. */
  predicate IsInPath(o: Obstacle, p: Point, threshold: real, dist: (Point, Point) -> real) {
    dist(o.position, p) < o.size + threshold
  }

  /** Whether any obstacle has `p` in its path. `is_in_path` is asked of
      each obstacle in order and stops at the first hit; only whether there is one matters. */
  function AnyInPath(obstacles: seq<Obstacle>, p: Point, threshold: real, dist: (Point, Point) -> real): (hit: bool)
    ensures hit <==> exists i :: 0 <= i < |obstacles| && IsInPath(obstacles[i], p, threshold, dist)
  {
    if |obstacles| == 0 then
      false
    else if IsInPath(obstacles[0], p, threshold, dist) then
      true
    else
      var rest := AnyInPath(obstacles[1..], p, threshold, dist);
      assert forall i :: 1 <= i < |obstacles| ==> obstacles[i] == obstacles[1..][i - 1];
      rest
  }

  /** One more obstacle adds exactly its own path: `p` is in the path of some
      obstacle of `obstacles + [o]` exactly when it was in the path of some
      obstacle before or is in the path of `o`. */
  lemma AnyInPathAppend(obstacles: seq<Obstacle>, o: Obstacle, p: Point, threshold: real, dist: (Point, Point) -> real)
    ensures AnyInPath(obstacles + [o], p, threshold, dist)
        <==> AnyInPath(obstacles, p, threshold, dist) || IsInPath(o, p, threshold, dist)
  {
    var all := obstacles + [o];
    assert forall i :: 0 <= i < |obstacles| ==> all[i] == obstacles[i];
    assert all[|obstacles|] == o;
  }

  /** With the Euclidean distance, being in the path is a statement about the
      coordinates: the reach `size + threshold` is positive and the squared
      distance is below its square. */
  lemma InPathBySquares(o: Obstacle, p: Point, threshold: real, dist: (Point, Point) -> real)
    requires IsEuclidean(dist)
    ensures IsInPath(o, p, threshold, dist)
        <==> o.size + threshold > 0.0
             && SqDist(o.position, p) < (o.size + threshold) * (o.size + threshold)
  {
    var d, reach := dist(o.position, p), o.size + threshold;
    assert d >= 0.0 && d * d == SqDist(o.position, p);
    if reach > 0.0 {
      SquareLess(d, reach);
    }
  }

  /** The boundary is outside: a point exactly `size + threshold` away is not
      in the path, and nothing farther is either. */
  lemma BoundaryIsOutside(o: Obstacle, p: Point, threshold: real, dist: (Point, Point) -> real)
    requires dist(o.position, p) >= o.size + threshold
    ensures !IsInPath(o, p, threshold, dist)
  {
  }

  /** A larger threshold only adds positions to an obstacle's path. */
  lemma ThresholdMonotone(o: Obstacle, p: Point, t1: real, t2: real, dist: (Point, Point) -> real)
    requires t1 <= t2
    ensures IsInPath(o, p, t1, dist) ==> IsInPath(o, p, t2, dist)
  {
  }

  /** A point sitting on an obstacle is in its path exactly when the obstacle's
      reach `size + threshold` is positive. */
  lemma OnObstacle(o: Obstacle, threshold: real, dist: (Point, Point) -> real)
    requires IsDistance(dist)
    ensures IsInPath(o, o.position, threshold, dist) <==> o.size + threshold > 0.0
  {
  }

  /** No obstacle is in anyone's path when the reach is not positive. */
  lemma NonPositiveReach(o: Obstacle, p: Point, threshold: real, dist: (Point, Point) -> real)
    requires IsDistance(dist)
    requires o.size + threshold <= 0.0
    ensures !IsInPath(o, p, threshold, dist)
  {
  }
}
