/** The robot's virtual sensors (`read_sensors` in Obstacles.py): three line
    sensors that score how close the line is, and an obstacle detector. */
module Sensors {
  import opened Geometry
  import opened Obstacles
  import opened LinePath

  /** The threshold the obstacle detector passes to `IsInPath`. */
  const DetectionThreshold: real := 3.0

  /** One reading of every sensor. */
  datatype Readings = Readings(left: real, center: real, right: real, obstacleDetector: bool)

  predicate InUnit(s: real) {
    0.0 <= s <= 1.0
  }

  predicate InRange(s: Readings) {
    InUnit(s.left) && InUnit(s.center) && InUnit(s.right)
  }

  /** The score a line sensor gives a line at distance `d`: 1 on the line,
      falling linearly to 0 at distance 2 and staying 0 beyond. */
  function Score(d: real): (s: real)
    ensures d >= 0.0 ==> InUnit(s)
    ensures d >= 0.0 ==> (s == 1.0 <==> d == 0.0)
    ensures s > 0.5 <==> d < 1.0
  {
    Max(0.0, 1.0 - d / 2.0)
  }

  /** A nearer line never scores lower. */
  lemma ScoreAntitone(d1: real, d2: real)
    requires d1 <= d2
    ensures Score(d2) <= Score(d1)
  {
  }

  /** The smallest distance from `probe` to a waypoint of `ws`. */
  function MinDist(ws: seq<Point>, probe: Point, dist: (Point, Point) -> real): (m: real)
    requires |ws| > 0
    ensures exists k :: 0 <= k < |ws| && m == dist(probe, ws[k])
    ensures forall k :: 0 <= k < |ws| ==> m <= dist(probe, ws[k])
  {
    if |ws| == 1 then
      dist(probe, ws[0])
    else
      var rest := MinDist(ws[1..], probe, dist);
      assert forall k :: 1 <= k < |ws| ==> ws[k] == ws[1..][k - 1];
      if dist(probe, ws[0]) <= rest then dist(probe, ws[0]) else rest
  }

  /** `v` is the best score a sensor at `probe` gives any waypoint with index in
      `[lo, hi)`: some waypoint there scores `v` and none scores more. */
  ghost predicate IsBestScore(v: real, path: seq<Point>, lo: int, hi: int, probe: Point, dist: (Point, Point) -> real)
    requires 0 <= lo <= hi <= |path|
  {
    && (exists j :: lo <= j < hi && v == Score(dist(probe, path[j])))
    && (forall j :: lo <= j < hi ==> Score(dist(probe, path[j])) <= v)
  }

  /** A best score sees the line, that is exceeds one half, exactly when some
      waypoint in range is less than one unit from the probe. */
  lemma BestScoreSeesLine(v: real, path: seq<Point>, lo: int, hi: int, probe: Point, dist: (Point, Point) -> real)
    requires 0 <= lo <= hi <= |path|
    requires IsBestScore(v, path, lo, hi, probe, dist)
    ensures v > 0.5 <==> exists j :: lo <= j < hi && dist(probe, path[j]) < 1.0
  {
    var k :| lo <= k < hi && v == Score(dist(probe, path[k]));
    if v > 0.5 {
      assert dist(probe, path[k]) < 1.0;
    }
    if j :| lo <= j < hi && dist(probe, path[j]) < 1.0 {
      assert Score(dist(probe, path[j])) > 0.5;
    }
  }

  /** Where the left sensor sits: one unit left of the robot. */
  function LeftProbe(p: Point): Point {
    Point(p.x - 1.0, p.y)
  }

  /** Where the right sensor sits: one unit right of the robot. */
  function RightProbe(p: Point): Point {
    Point(p.x + 1.0, p.y)
  }

  /** The score of a side sensor at `probe`: the nearest waypoint in the window
      around the robot's nearest waypoint, scored. */
  function SideScore(path: seq<Point>, w: Span, probe: Point, dist: (Point, Point) -> real): (s: real)
    requires w.lo < w.hi <= |path|
    requires IsDistance(dist)
    ensures InUnit(s)
    ensures IsBestScore(s, path, w.lo, w.hi, probe, dist)
  {
    var window := path[w.lo..w.hi];
    var d := MinDist(window, probe, dist);
    var k :| 0 <= k < |window| && d == dist(probe, window[k]);
    assert window[k] == path[w.lo + k];
    assert forall j :: w.lo <= j < w.hi ==> path[j] == window[j - w.lo];
    Score(d)
  }

  /** One reading of all sensors for a robot at `pos`. The center sensor scores
      the nearest waypoint; each side sensor scores the nearest waypoint of the
      window around it; the detector fires when an obstacle has the robot
      within `DetectionThreshold` of its path. */
  function Read(path: seq<Point>, obstacles: seq<Obstacle>, pos: Point, dist: (Point, Point) -> real): (s: Readings)
    requires |path| > 0
    requires IsDistance(dist)
    ensures InRange(s)
    ensures IsBestScore(s.center, path, 0, |path|, pos, dist)
    ensures s.center == 1.0 <==> pos in path
    ensures var w := Window(|path|, ClosestIndex(path, pos, dist));
            && IsBestScore(s.left, path, w.lo, w.hi, LeftProbe(pos), dist)
            && IsBestScore(s.right, path, w.lo, w.hi, RightProbe(pos), dist)
    ensures s.obstacleDetector <==> exists i :: 0 <= i < |obstacles| && IsInPath(obstacles[i], pos, DetectionThreshold, dist)
  {
    var idx := ClosestIndex(path, pos, dist);
    var center := Score(dist(pos, path[idx]));
    assert forall j :: 0 <= j < |path| ==> Score(dist(pos, path[j])) <= center;
    assert center == 1.0 <==> pos in path by {
      if pos in path {
        var j :| 0 <= j < |path| && path[j] == pos;
        assert dist(pos, path[idx]) <= dist(pos, path[j]);
      }
    }
    var w := Window(|path|, idx);
    Readings(
      SideScore(path, w, LeftProbe(pos), dist),
      center,
      SideScore(path, w, RightProbe(pos), dist),
      AnyInPath(obstacles, pos, DetectionThreshold, dist))
  }

  /** A robot standing exactly on a waypoint reads 1 on its center sensor. */
  lemma OnWaypointCenterIsOne(path: seq<Point>, obstacles: seq<Obstacle>, j: nat, dist: (Point, Point) -> real)
    requires j < |path|
    requires IsDistance(dist)
    ensures Read(path, obstacles, path[j], dist).center == 1.0
  {
  }
}
