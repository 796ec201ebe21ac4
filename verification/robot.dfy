/** The line-following robot (class `LineFollowingRobot` in Obstacles.py): its
    state, the three behaviours, the state machine that chooses between them,
    and the motion integrator, one tick at a time. */
module Robot {
  import opened Wrappers
  import opened Geometry
  import opened Obstacles
  import opened LinePath
  import opened Sensors
  import opened Pid

  /** The robot's speed, fixed by the constructor and never changed. */
  const Speed: real := 1.0

  /** Degrees the robot turns on each tick of obstacle avoidance. */
  const AvoidTurn: real := 30.0

  /** Degrees the robot turns on each tick of the line search. */
  const SearchTurn: real := 10.0

  /** A line sensor scoring above this sees the line. */
  const LineSeen: real := 0.5

  /** How many speed units ahead obstacle avoidance looks. */
  const ProbeDistance: real := 2.0

  datatype Behavior = FollowLine | AvoidObstacle | FindLine

  /** The robot between ticks. `direction` is in degrees and is never wrapped.
      The path and the obstacles belong to the environment; the robot only
      reads them. */
  datatype Robot = Robot(
    position: Point,
    direction: real,
    sensors: Readings,
    path: seq<Point>,
    obstacles: seq<Obstacle>,
    state: Behavior,
    memory: Memory)

  /** A robot after one of its actions, and the value the action returned. */
  datatype Action<T> = Action(robot: Robot, value: T)

  /** What holds of every robot the constructor and the ticks produce: there
      is a line to follow and every sensor score lies in [0, 1]. */
  predicate Valid(r: Robot) {
    |r.path| > 0 && InRange(r.sensors)
  }

  /** Builds a robot at `start`. A missing or empty path is replaced by the
      default path. The sensors hold zero until the first tick reads them. */
  function New(start: Point, linePath: Option<seq<Point>>): (r: Robot)
    ensures Valid(r)
    ensures linePath.Some? && |linePath.value| > 0 ==> r.path == linePath.value
    ensures linePath.None? || |linePath.value| == 0 ==> r.path == DefaultPath()
    ensures r.position == start && r.direction == 0.0 && r.state == FollowLine
    ensures r.obstacles == [] && r.memory == Fresh
  {
    var path := if linePath.Some? && |linePath.value| > 0 then linePath.value else DefaultPath();
    Robot(start, 0.0, Readings(0.0, 0.0, 0.0, false), path, [], FollowLine, Fresh)
  }

  /** A robot built without a usable path follows the 100-waypoint default
      path, whose waypoint `i` has x coordinate `i`. */
  lemma NewUsesDefaultPath(start: Point, linePath: Option<seq<Point>>, i: nat)
    requires linePath.None? || |linePath.value| == 0
    requires i < DefaultLength
    ensures |New(start, linePath).path| == 100
    ensures New(start, linePath).path[i].x == i as real
  {
    DefaultPathShape(i);
  }

  /** Adds an obstacle to the environment and changes nothing else. */
  function AddObstacle(r: Robot, position: Point, size: real): (r': Robot)
    ensures r'.obstacles == r.obstacles + [Obstacle(position, size)]
    ensures r' == r.(obstacles := r'.obstacles)
  {
    r.(obstacles := r.obstacles + [Obstacle(position, size)])
  }

  /** Adding an obstacle adds exactly the detections within its reach: at any
      position the detector fires afterwards exactly when it fired before or
      the position is within the new obstacle's size plus the detection
      threshold. */
  lemma AddObstacleDetects(r: Robot, p: Point, size: real, q: Point, dist: (Point, Point) -> real)
    requires Valid(r)
    requires IsDistance(dist)
    ensures Read(r.path, AddObstacle(r, p, size).obstacles, q, dist).obstacleDetector
        <==> Read(r.path, r.obstacles, q, dist).obstacleDetector || dist(p, q) < size + DetectionThreshold
  {
    AnyInPathAppend(r.obstacles, Obstacle(p, size), q, DetectionThreshold, dist);
  }

  /** One draw of the random obstacle generator: the index of the waypoint it
      chose, the integer offsets it settled on, and the size it drew. */
  datatype Draw = Draw(waypoint: nat, offsetX: int, offsetY: int, size: real)

  /** What the generator's draws always satisfy once its rejection loop exits:
      the waypoint exists, both offsets lie in [-10, 10] and at least one has
      magnitude 2 or more, and the size lies between 1 and the maximum size. */
  predicate IsDraw(d: Draw, waypoints: nat, maxSize: real) {
    && d.waypoint < waypoints
    && -10 <= d.offsetX <= 10 && -10 <= d.offsetY <= 10
    && !(Abs(d.offsetX as real) < 2.0 && Abs(d.offsetY as real) < 2.0)
    && ((1.0 <= d.size <= maxSize) || (maxSize <= d.size <= 1.0))
  }

  /** Obstacle `o` lies near waypoint `w` but not on it: at most 10 away on
      each axis and at least 2 away on one of them. */
  predicate NearButOff(o: Obstacle, w: Point) {
    var dx := Abs(o.position.x - w.x);
    var dy := Abs(o.position.y - w.y);
    dx <= 10.0 && dy <= 10.0 && (dx >= 2.0 || dy >= 2.0)
  }

  /** Adds one obstacle per draw, offset from the drawn waypoint. */
  function GenerateObstacles(r: Robot, maxSize: real, draws: seq<Draw>): (r': Robot)
    requires forall k :: 0 <= k < |draws| ==> IsDraw(draws[k], |r.path|, maxSize)
    ensures r' == r.(obstacles := r'.obstacles)
    ensures |r'.obstacles| == |r.obstacles| + |draws|
    ensures r'.obstacles[..|r.obstacles|] == r.obstacles
    ensures forall k :: |r.obstacles| <= k < |r'.obstacles| ==>
              && (exists j :: 0 <= j < |r.path| && NearButOff(r'.obstacles[k], r.path[j]))
              && ((1.0 <= r'.obstacles[k].size <= maxSize) || (maxSize <= r'.obstacles[k].size <= 1.0))
    decreases |draws|
  {
    if |draws| == 0 then
      r
    else
      var d := draws[0];
      assert IsDraw(d, |r.path|, maxSize);
      var w := r.path[d.waypoint];
      var position := Point(w.x + d.offsetX as real, w.y + d.offsetY as real);
      var next := AddObstacle(r, position, d.size);
      assert Abs(position.x - w.x) == Abs(d.offsetX as real);
      assert Abs(position.y - w.y) == Abs(d.offsetY as real);
      assert NearButOff(next.obstacles[|r.obstacles|], w);
      GenerateObstacles(next, maxSize, draws[1..])
  }

  /** Reads every sensor at the robot's position. */
  function ReadSensors(r: Robot, dist: (Point, Point) -> real): (r': Robot)
    requires |r.path| > 0
    requires IsDistance(dist)
    ensures Valid(r')
    ensures r' == r.(sensors := Read(r.path, r.obstacles, r.position, dist))
  {
    r.(sensors := Read(r.path, r.obstacles, r.position, dist))
  }

  /** Line following: one controller step on the left and right scores, whose
      steering is added to the direction. The position does not change. */
  function Follow(r: Robot): (a: Action<real>)
    ensures var error := r.sensors.left - r.sensors.right;
            && a.robot.memory.integral == r.memory.integral + error
            && a.robot.memory.previousError == error
            && a.value == Kp * error + Ki * a.robot.memory.integral + Kd * (error - r.memory.previousError)
    ensures a.robot == r.(direction := r.direction + a.value, memory := a.robot.memory)
  {
    var out := Step(r.memory, Reading(r.sensors.left, r.sensors.right));
    Action(r.(direction := r.direction + out.steering, memory := out.memory), out.steering)
  }

  /** Where obstacle avoidance looks: `ProbeDistance` speed units ahead along
      heading `direction`, using the signed direction for both axes. */
  function Probe(p: Point, direction: real): Point
  {
    Point(p.x + Speed * ProbeDistance * (direction / 360.0),
          p.y + Speed * ProbeDistance * (1.0 - direction / 360.0))
  }

  /** The probe point lies to the right of the robot exactly when the heading
      is positive, and ahead in y exactly when the signed heading is below a
      full turn. */
  lemma ProbeDirection(p: Point, direction: real)
    ensures var q := Probe(p, direction);
            && (q.x > p.x <==> direction > 0.0)
            && (q.x == p.x <==> direction == 0.0)
            && (q.y > p.y <==> direction < 360.0)
            && (q.y == p.y <==> direction == 360.0)
  {
  }

  /** Obstacle avoidance: turn by `AvoidTurn` degrees, then report whether the
      probe point ahead along the new heading is clear of every obstacle, with
      the default threshold. The position does not change. */
  function Avoid(r: Robot, dist: (Point, Point) -> real): (a: Action<bool>)
    ensures a.robot == r.(direction := r.direction + AvoidTurn)
    ensures a.value <==> forall i :: 0 <= i < |r.obstacles| ==>
              !IsInPath(r.obstacles[i], Probe(r.position, a.robot.direction), DefaultThreshold, dist)
  {
    var turned := r.(direction := r.direction + AvoidTurn);
    Action(turned, !AnyInPath(r.obstacles, Probe(r.position, turned.direction), DefaultThreshold, dist))
  }

  /** Line search: turn by `SearchTurn` degrees (also when the line is already
      in sight), then report whether any line sensor sees the line. */
  function Search(r: Robot): (a: Action<bool>)
    ensures a.robot == r.(direction := r.direction + SearchTurn)
    ensures a.value <==> r.sensors.left > LineSeen || r.sensors.center > LineSeen || r.sensors.right > LineSeen
  {
    var s := r.sensors;
    Action(r.(direction := r.direction + SearchTurn), s.left > LineSeen || s.center > LineSeen || s.right > LineSeen)
  }

  /** What a successful search means: after the sensors are read, `find_line`
      reports the line exactly when the robot is less than one unit from some
      waypoint, or a side probe is less than one unit from some waypoint of
      the window around the nearest one. */
  lemma SearchSeesLine(r: Robot, dist: (Point, Point) -> real)
    requires Valid(r)
    requires IsDistance(dist)
    ensures var s := ReadSensors(r, dist);
            var w := Window(|r.path|, ClosestIndex(r.path, r.position, dist));
            Search(s).value <==>
              || (exists j :: 0 <= j < |r.path| && dist(r.position, r.path[j]) < 1.0)
              || (exists j :: w.lo <= j < w.hi && dist(LeftProbe(r.position), r.path[j]) < 1.0)
              || (exists j :: w.lo <= j < w.hi && dist(RightProbe(r.position), r.path[j]) < 1.0)
  {
    var s := ReadSensors(r, dist).sensors;
    var w := Window(|r.path|, ClosestIndex(r.path, r.position, dist));
    BestScoreSeesLine(s.center, r.path, 0, |r.path|, r.position, dist);
    BestScoreSeesLine(s.left, r.path, w.lo, w.hi, LeftProbe(r.position), dist);
    BestScoreSeesLine(s.right, r.path, w.lo, w.hi, RightProbe(r.position), dist);
  }

  /** The behaviour state machine on freshly read sensors. */
  function Behave(r: Robot, dist: (Point, Point) -> real): Robot
  {
    match r.state
    case FollowLine =>
      if r.sensors.obstacleDetector then r.(state := AvoidObstacle) else Follow(r).robot
    case AvoidObstacle =>
      var a := Avoid(r, dist);
      if a.value then a.robot.(state := FindLine) else a.robot
    case FindLine =>
      var a := Search(r);
      if a.value then a.robot.(state := FollowLine) else a.robot
  }

  /** The state machine only makes the transitions of `Allowed`. It changes
      only the state, the direction and the controller memory, and the memory
      only on a tick that starts and ends in the follow-line state. */
  lemma BehaveTransitions(r: Robot, dist: (Point, Point) -> real)
    ensures var b := Behave(r, dist);
            && Allowed(r.state, b.state)
            && b == r.(state := b.state, direction := b.direction, memory := b.memory)
            && (b.state != r.state ==> b.memory == r.memory)
            && (r.state != FollowLine ==> b.memory == r.memory)
  {
  }

  /** The motion integrator: x advances by the direction as a fraction of a
      full turn, y by one minus the magnitude of that fraction, both scaled by
      the speed. */
  function Move(r: Robot): Robot
  {
    var dx := Speed * (r.direction / 360.0);
    var dy := Speed * (1.0 - Abs(r.direction) / 360.0);
    r.(position := Point(r.position.x + dx, r.position.y + dy))
  }

  /** Moving changes only the position. x grows exactly when the heading is
      positive, and y grows exactly when the heading is less than a full turn
      either way. */
  lemma MoveDirection(r: Robot)
    ensures var m := Move(r);
            && m == r.(position := m.position)
            && (m.position.x > r.position.x <==> r.direction > 0.0)
            && (m.position.x == r.position.x <==> r.direction == 0.0)
            && (m.position.y > r.position.y <==> Abs(r.direction) < 360.0)
            && (m.position.y == r.position.y <==> Abs(r.direction) == 360.0)
  {
  }

  /** The transitions the state machine has: following may turn to avoiding,
      avoiding to searching, searching to following, and each may stay. */
  predicate Allowed(from: Behavior, to: Behavior) {
    match from
    case FollowLine => to == FollowLine || to == AvoidObstacle
    case AvoidObstacle => to == AvoidObstacle || to == FindLine
    case FindLine => to == FindLine || to == FollowLine
  }

  /** One tick: read the sensors, run the state machine, move. */
  function Update(r: Robot, dist: (Point, Point) -> real): (r': Robot)
    requires Valid(r)
    requires IsDistance(dist)
    ensures Valid(r')
    ensures r'.path == r.path && r'.obstacles == r.obstacles
    ensures r'.sensors == Read(r.path, r.obstacles, r.position, dist)
    ensures Allowed(r.state, r'.state)
    ensures r.state == FollowLine ==>
              && (r'.state == AvoidObstacle <==> r'.sensors.obstacleDetector)
              && (r'.sensors.obstacleDetector ==> r'.direction == r.direction && r'.memory == r.memory)
              && (!r'.sensors.obstacleDetector ==>
                    var out := Step(r.memory, Reading(r'.sensors.left, r'.sensors.right));
                    r'.direction == r.direction + out.steering && r'.memory == out.memory)
    ensures r.state == AvoidObstacle ==>
              && r'.direction == r.direction + AvoidTurn
              && r'.memory == r.memory
              && (r'.state == FindLine <==>
                    forall i :: 0 <= i < |r.obstacles| ==>
                      !IsInPath(r.obstacles[i], Probe(r.position, r'.direction), DefaultThreshold, dist))
    ensures r.state == FindLine ==>
              && r'.direction == r.direction + SearchTurn
              && r'.memory == r.memory
              && (r'.state == FollowLine <==>
                    r'.sensors.left > LineSeen || r'.sensors.center > LineSeen || r'.sensors.right > LineSeen)
    ensures r'.position.x == r.position.x + Speed * (r'.direction / 360.0)
    ensures r'.position.y == r.position.y + Speed * (1.0 - Abs(r'.direction) / 360.0)
  {
    Move(Behave(ReadSensors(r, dist), dist))
  }

  /** One tick of following with no obstacles around stays following. */
  lemma FollowsWithoutObstacles(r: Robot, dist: (Point, Point) -> real)
    requires Valid(r)
    requires IsDistance(dist)
    requires r.obstacles == [] && r.state == FollowLine
    ensures Update(r, dist).state == FollowLine
  {
    assert !Read(r.path, r.obstacles, r.position, dist).obstacleDetector;
  }

  /** Element `k + 1` of `trace` is one tick after element `k`. */
  ghost predicate Ticked(trace: seq<Robot>, k: int, dist: (Point, Point) -> real)
    requires 0 <= k < |trace| - 1
  {
    Valid(trace[k]) && IsDistance(dist) && trace[k + 1] == Update(trace[k], dist)
  }

  /** The robot one tick later, as a function value; a robot that cannot
      tick stays where it is. */
  ghost function TickOf(dist: (Point, Point) -> real): Robot -> Robot {
    x => if Valid(x) && IsDistance(dist) then Update(x, dist) else x
  }

  /** Each element of `trace` after the first is `tick` of the one before. */
  ghost predicate Chained(trace: seq<Robot>, tick: Robot -> Robot) {
    forall k :: 0 <= k < |trace| - 1 ==> trace[k + 1] == tick(trace[k])
  }

  /** Extending a chain by `tick` of its last element keeps it a chain. */
  lemma ChainAppend(trace: seq<Robot>, tick: Robot -> Robot)
    requires |trace| > 0 && Chained(trace, tick)
    ensures Chained(trace + [tick(trace[|trace| - 1])], tick)
  {
    var trace' := trace + [tick(trace[|trace| - 1])];
    assert forall k :: 0 <= k < |trace| ==> trace'[k] == trace[k];
  }

  /** Every robot of `trace` is valid and has the path and obstacles of `r`. */
  ghost predicate Keeps(r: Robot, trace: seq<Robot>) {
    forall k :: 0 <= k < |trace| ==> Valid(trace[k]) && trace[k].path == r.path && trace[k].obstacles == r.obstacles
  }

  /** Appending a valid robot with the same path and obstacles keeps `Keeps`. */
  lemma KeepsAppend(r: Robot, trace: seq<Robot>, next: Robot)
    requires Keeps(r, trace)
    requires Valid(next) && next.path == r.path && next.obstacles == r.obstacles
    ensures Keeps(r, trace + [next])
  {
    assert forall k :: 0 <= k < |trace| ==> (trace + [next])[k] == trace[k];
  }

  /** Every robot of `trace` is following the line. */
  ghost predicate AllFollow(trace: seq<Robot>) {
    forall k :: 0 <= k < |trace| ==> trace[k].state == FollowLine
  }

  /** What `Simulate` maintains of the trace built so far: it starts at `r`,
      it is a chain of ticks over valid robots with the path and obstacles of
      `r`, and, without obstacles, the robot follows the line throughout. */
  ghost predicate Simulating(r: Robot, trace: seq<Robot>, dist: (Point, Point) -> real) {
    && |trace| > 0 && trace[0] == r
    && Keeps(r, trace) && Chained(trace, TickOf(dist))
    && (r.obstacles == [] && r.state == FollowLine ==> AllFollow(trace))
  }

  /** One more tick keeps what `Simulate` maintains. */
  lemma RunAppend(r: Robot, trace: seq<Robot>, dist: (Point, Point) -> real)
    requires IsDistance(dist)
    requires Simulating(r, trace, dist)
    ensures Valid(trace[|trace| - 1])
    ensures Simulating(r, trace + [Update(trace[|trace| - 1], dist)], dist)
  {
    var last := trace[|trace| - 1];
    var next := Update(last, dist);
    assert next == TickOf(dist)(last);
    ChainAppend(trace, TickOf(dist));
    KeepsAppend(r, trace, next);
    if r.obstacles == [] && r.state == FollowLine {
      FollowsWithoutObstacles(last, dist);
      assert forall k :: 0 <= k < |trace| ==> (trace + [next])[k] == trace[k];
    }
  }

  /** Every step of a run is an `Update` of a valid robot. */
  lemma RunTicks(r: Robot, trace: seq<Robot>, dist: (Point, Point) -> real)
    requires IsDistance(dist)
    requires Keeps(r, trace) && Chained(trace, TickOf(dist))
    ensures forall k :: 0 <= k < |trace| - 1 ==> Ticked(trace, k, dist)
  {
    forall k | 0 <= k < |trace| - 1
      ensures Ticked(trace, k, dist)
    {
      assert Valid(trace[k]) && trace[k + 1] == TickOf(dist)(trace[k]);
    }
  }

  /** Every transition of a run is one the state machine has. */
  lemma RunTransitions(r: Robot, trace: seq<Robot>, dist: (Point, Point) -> real)
    requires IsDistance(dist)
    requires forall k :: 0 <= k < |trace| - 1 ==> Ticked(trace, k, dist)
    ensures forall k :: 0 <= k < |trace| - 1 ==> Allowed(trace[k].state, trace[k + 1].state)
  {
    forall k | 0 <= k < |trace| - 1
      ensures Allowed(trace[k].state, trace[k + 1].state)
    {
      assert Ticked(trace, k, dist);
    }
  }

  /** What `Simulate` promises of the trace of `n` ticks it builds. */
  lemma RunFacts(r: Robot, n: nat, trace: seq<Robot>, dist: (Point, Point) -> real)
    requires IsDistance(dist)
    requires |trace| == n + 1 && Simulating(r, trace, dist)
    ensures |trace| == n + 1 && trace[0] == r
    ensures forall k :: 0 <= k <= n ==> Valid(trace[k]) && trace[k].path == r.path && trace[k].obstacles == r.obstacles
    ensures forall k :: 0 <= k < n ==> Ticked(trace, k, dist)
    ensures forall k :: 0 <= k < n ==> Allowed(trace[k].state, trace[k + 1].state)
    ensures forall k :: 0 <= k < n && trace[k].state == AvoidObstacle ==> trace[k + 1].state != FollowLine
    ensures r.obstacles == [] && r.state == FollowLine ==> forall k :: 0 <= k <= n ==> trace[k].state == FollowLine
  {
    RunTicks(r, trace, dist);
    RunTransitions(r, trace, dist);
  }

  /** Runs `n` ticks and returns the robot before the first tick and after
      each one. Every tick is an `Update`; the path and obstacles stay as they
      were; every transition is one the state machine has, so the robot never
      goes from avoiding straight back to following; and without obstacles a
      robot that starts out following never stops following. */
  method Simulate(r: Robot, n: nat, dist: (Point, Point) -> real) returns (trace: seq<Robot>)
    requires Valid(r)
    requires IsDistance(dist)
    ensures |trace| == n + 1 && trace[0] == r
    ensures forall k :: 0 <= k <= n ==> Valid(trace[k]) && trace[k].path == r.path && trace[k].obstacles == r.obstacles
    ensures forall k :: 0 <= k < n ==> Ticked(trace, k, dist)
    ensures forall k :: 0 <= k < n ==> Allowed(trace[k].state, trace[k + 1].state)
    ensures forall k :: 0 <= k < n && trace[k].state == AvoidObstacle ==> trace[k + 1].state != FollowLine
    ensures r.obstacles == [] && r.state == FollowLine ==> forall k :: 0 <= k <= n ==> trace[k].state == FollowLine
  {
    trace := [r];
    var i := 0;
    while i < n
      invariant i <= n && |trace| == i + 1
      invariant Simulating(r, trace, dist)
    {
      RunAppend(r, trace, dist);
      trace := trace + [Update(trace[i], dist)];
      i := i + 1;
    }
    RunFacts(r, n, trace, dist);
  }

  /** An obstacle of positive size sitting on the robot makes a following robot
      switch to avoidance on the next tick, without steering on that tick. */
  lemma ObstacleOnRobotTriggersAvoidance(r: Robot, size: real, dist: (Point, Point) -> real)
    requires Valid(r)
    requires IsDistance(dist)
    requires r.state == FollowLine
    requires size > 0.0
    requires Obstacle(r.position, size) in r.obstacles
    ensures Update(r, dist).state == AvoidObstacle
    ensures Update(r, dist).direction == r.direction
  {
    var i :| 0 <= i < |r.obstacles| && r.obstacles[i] == Obstacle(r.position, size);
    assert IsInPath(r.obstacles[i], r.position, DetectionThreshold, dist);
  }

  /** Where avoidance probes and where the robot then goes agree for headings
      that are not negative: the probe is where two ticks of motion at that
      heading lead. For a negative heading the integrator uses its magnitude
      for y and the probe does not, so the probe lies further along y than the robot goes. */
  lemma ProbeVersusMotion(r: Robot)
    ensures r.direction >= 0.0 ==> Probe(r.position, r.direction) == Move(Move(r)).position
    ensures r.direction < 0.0 ==> Probe(r.position, r.direction).y > Move(Move(r)).position.y
  {
  }
}
