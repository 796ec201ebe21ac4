/** The line the robot follows: an ordered sequence of waypoints, the default
    zig-zag path, the search for the waypoint nearest to the robot, and the
    window of waypoints around it that the side sensors look at. */
module LinePath {
  import opened Geometry

  /** Number of waypoints of the default path. */
  const DefaultLength: nat := 100

  /** The default path changes slope every `SegmentLength` waypoints. */
  const SegmentLength: nat := 20

  /** How far the side sensors' window reaches around the nearest waypoint. */
  const WindowRadius: nat := 5

  /** The y coordinate of default waypoint `i`, with the arithmetic of
      `_create_default_path`. All operands are non-negative, so integer division
      and remainder agree with Python's floor division and modulo. The
      path never leaves the band from -95 to 105. */
  function DefaultY(i: nat): (y: int)
    ensures -5 * (SegmentLength - 1) <= y <= 10 + 5 * (SegmentLength - 1)
  {
    var segment := i / SegmentLength;
    var offset := i % SegmentLength;
    10 * (segment % 2) + 5 * offset * (segment % 2) - 5 * offset * ((segment + 1) % 2)
  }

  /** The default path: waypoint `i` is `(i, DefaultY(i))`. */
  function DefaultPath(): (path: seq<Point>)
    ensures |path| == DefaultLength
    ensures forall i :: 0 <= i < |path| ==> path[i].x == i as real && -95.0 <= path[i].y <= 105.0
  {
    seq(DefaultLength, i requires 0 <= i < DefaultLength => Point(i as real, DefaultY(i) as real))
  }

  /** The shape of the default path: waypoint `i` has x coordinate `i`, and the
      path alternates between segments of 20 waypoints that fall from 0 in
      steps of 5 (even segments) and rise from 10 in steps of 5 (odd ones). */
  lemma DefaultPathShape(i: nat)
    requires i < DefaultLength
    ensures DefaultPath()[i].x == i as real
    ensures (i / 20) % 2 == 0 ==> DefaultPath()[i].y == (-5 * (i % 20)) as real
    ensures (i / 20) % 2 == 1 ==> DefaultPath()[i].y == (10 + 5 * (i % 20)) as real
  {
    var segment := i / SegmentLength;
    var offset := i % SegmentLength;
    if segment % 2 == 0 {
      assert (segment + 1) % 2 == 1;
      assert DefaultY(i) == 10 * 0 + 5 * offset * 0 - 5 * offset * 1;
    } else {
      assert (segment + 1) % 2 == 0;
      assert DefaultY(i) == 10 * 1 + 5 * offset * 1 - 5 * offset * 0;
    }
  }

  /** `k` is the index of a waypoint nearest to `p`, and the lowest such index:
      every waypoint before it is strictly farther. */
  ghost predicate IsClosest(path: seq<Point>, p: Point, k: int, dist: (Point, Point) -> real) {
    && 0 <= k < |path|
    && (forall j :: 0 <= j < |path| ==> dist(p, path[k]) <= dist(p, path[j]))
    && (forall j :: 0 <= j < k ==> dist(p, path[k]) < dist(p, path[j]))
  }

  /** Index of the waypoint nearest to `p`. `_find_closest_line_point` scans
      the path once, replacing its best candidate only on a strictly smaller
      distance, so ties go to the lowest index. On an empty path the scan never
      runs and it returns 0. */
  function ClosestIndex(path: seq<Point>, p: Point, dist: (Point, Point) -> real): (k: nat)
    ensures |path| == 0 ==> k == 0
    ensures |path| > 0 ==> IsClosest(path, p, k, dist)
  {
    if |path| == 0 then 0 else ClosestFrom(path, p, 1, 0, dist)
  }

  /** The scan of `ClosestIndex` from waypoint `i` on, with `best` the nearest
      waypoint among the first `i`. */
  function ClosestFrom(path: seq<Point>, p: Point, i: nat, best: nat, dist: (Point, Point) -> real): (k: nat)
    requires best < i <= |path|
    requires forall j :: 0 <= j < i ==> dist(p, path[best]) <= dist(p, path[j])
    requires forall j :: 0 <= j < best ==> dist(p, path[best]) < dist(p, path[j])
    ensures IsClosest(path, p, k, dist)
    decreases |path| - i
  {
    if i == |path| then
      best
    else if dist(p, path[i]) < dist(p, path[best]) then
      ClosestFrom(path, p, i + 1, i, dist)
    else
      ClosestFrom(path, p, i + 1, best, dist)
  }

  /** The nearest waypoint with the lowest index is unique, so `IsClosest`
      pins down the result of `ClosestIndex` completely. */
  lemma ClosestIsUnique(path: seq<Point>, p: Point, k1: int, k2: int, dist: (Point, Point) -> real)
    requires IsClosest(path, p, k1, dist) && IsClosest(path, p, k2, dist)
    ensures k1 == k2
  {
    assert dist(p, path[k1]) == dist(p, path[k2]);
  }

  /** On a path of one waypoint the nearest waypoint is always the first,
      wherever the robot is. */
  lemma SingleWaypointIsClosest(w: Point, p: Point, dist: (Point, Point) -> real)
    ensures ClosestIndex([w], p, dist) == 0
  {
  }

  /** A half-open range of waypoint indices `[lo, hi)`. */
  datatype Span = Span(lo: nat, hi: nat)

  /** Waypoint `j` lies within `WindowRadius` of waypoint `idx`: at most that
      many places before it and fewer than that many after it. */
  predicate NearIndex(idx: int, j: int) {
    idx - WindowRadius <= j < idx + WindowRadius
  }

  /** The waypoints the side sensors search: from `WindowRadius` before the
      nearest waypoint up to, but not including, `WindowRadius` after it,
      clamped to the path. */
  function Window(n: nat, idx: nat): (w: Span)
    requires idx < n
    ensures w.lo <= idx < w.hi <= n
    ensures forall j :: 0 <= j < n ==> (w.lo <= j < w.hi <==> NearIndex(idx, j))
    ensures w.hi - w.lo <= 2 * WindowRadius
  {
    var lo := if idx >= WindowRadius then idx - WindowRadius else 0;
    var hi := if n <= idx + WindowRadius then n else idx + WindowRadius;
    Span(lo, hi)
  }
}
