# Line-following robot and maze carver, modelled in Dafny

This project models two pieces of the RobotObstacleAvoid repository.

**The line-following robot** (`Obstacles.py`) is modelled one tick at a time:

- obstacles and the proximity test `is_in_path`;
- the robot's construction, with the 100-waypoint default path;
- the nearest-waypoint search, whose ties go to the lowest index;
- the clamped window of waypoints the side sensors search;
- the three line sensors, whose scores are clipped to [0, 1], and the obstacle detector;
- the PID line-following controller;
- the avoidance and line-search manoeuvres;
- the three-state behaviour machine (follow line, avoid obstacle, find line);
- the motion integrator.

The robot is an immutable record, and every operation is a pure function from robot to robot. `Simulate` runs a number of ticks and returns the whole trace.

**The maze carver** (`Maze.py`) is the recursive backtracker `make_maze` with its nested `carve_path`. The grid is a value, and the carver is a recursive method that returns the carved grid. The random shuffle of the four moves is a parameter, `order`, which gives a permutation of the moves for every cell. Each cell is carved from at most once, so this parameter covers every run of `make_maze`.

Distances are a parameter `dist` of every operation that measures one. `Geometry.IsDistance` states what the proofs rely on:

- a distance is never negative;
- a distance is zero exactly between equal points.

The Euclidean distance of `is_in_path` and `read_sensors` satisfies both. `Geometry.IsEuclidean` states that `dist` is that distance: the non-negative root of the sum of squared coordinate differences.

Files:

- `wrappers.dfy`: `Option`, for the optional `line_path` argument.
- `geometry.dfy`: points, the distance predicates, and comparing by squares.
- `obstacles.dfy`: obstacles, `is_in_path`, and the existential obstacle scan.
- `line_path.dfy`: the default path, the nearest waypoint, and the sensor window.
- `sensors.dfy`: the scores and `read_sensors`.
- `pid.dfy`: the controller step and its closed form over a run.
- `robot.dfy`: the robot, its behaviours, `update`, and runs of ticks.
- `maze.dfy`: grids, `carve_path`, the exit, and `make_maze`.

Facts about the code that the model keeps:

- `avoid_obstacle` calls `is_in_path` without a threshold, so it uses the default threshold 1 (`Obstacles.py:11`, `Obstacles.py:157`).
- The gains 0.5, 0.01 and 0.2 and the speed 1.0 are constants set in `__init__` (`Obstacles.py:24`, `Obstacles.py:42-44`). The model makes them constants.
- No error is raised for a missing path or a bad size. A missing or empty path is replaced by the default path (`Obstacles.py:33`), and obstacle sizes are not checked.
- From zero memory, readings with equal left and right scores never steer (`Pid.SymmetricRunDoesNotSteer`). After an asymmetric tick, the integral and derivative terms steer on a symmetric tick as well (`Obstacles.py:131-138`). `Pid.RunClosedForm` states the exact amount.
- The motion integrator uses the magnitude of the direction for y (`Obstacles.py:207`). The avoidance probe uses the signed direction (`Obstacles.py:153`). `Robot.ProbeVersusMotion` states where the two agree and where they do not.

## Model

| member | source | states |
|---|---|---|
| `Obstacles.IsInPath` | Obstacles.py:11-15 | A position is in an obstacle's path when its distance to the obstacle is strictly less than `size + threshold`. |
| `Obstacles.InPathBySquares` | Obstacles.py:11-15 | For the Euclidean distance, a position is in the path exactly when `size + threshold` is positive and the squared coordinate distance is below its square. |
| `Geometry.SquareLess` | Obstacles.py:13-15 | Between a non-negative distance and a positive reach, comparing the squares gives the same answer as comparing the numbers, so the root need not be taken. |
| `Obstacles.AnyInPath` | Obstacles.py:105-109 | The scan over the obstacles is true exactly when some obstacle has the point strictly inside `size + threshold`. Stopping at the first hit does not change the answer. |
| `Obstacles.BoundaryIsOutside` | Obstacles.py:11-15 | A point exactly `size + threshold` away, or farther, is not in the obstacle's path, because the comparison is strict. |
| `Obstacles.ThresholdMonotone` | Obstacles.py:11-15 | A larger threshold only adds points to an obstacle's path. |
| `Obstacles.OnObstacle` | Obstacles.py:11-15 | The obstacle's own position is in its path exactly when `size + threshold` is positive. |
| `Obstacles.NonPositiveReach` | Obstacles.py:11-15 | When `size + threshold` is not positive, no point is in the path. |
| `LinePath.DefaultY` | Obstacles.py:54 | The y coordinate of any default waypoint lies between -95 and 105. |
| `LinePath.DefaultPath` | Obstacles.py:48-56 | The default path has 100 waypoints. Waypoint `i` has x = `i` and a y between -95 and 105. |
| `LinePath.DefaultPathShape` | Obstacles.py:48-56 | Default waypoint `i` has x = `i`. Its y falls from 0 in steps of 5 on even 20-waypoint segments and rises from 10 in steps of 5 on odd ones. |
| `LinePath.ClosestIndex` | Obstacles.py:111-123 | On a non-empty path the result is an index in range whose waypoint is no farther than any other, and every lower index is strictly farther. On an empty path the result is 0. |
| `LinePath.ClosestFrom` | Obstacles.py:116-121 | The scan with strict `<` keeps the earliest nearest waypoint as its candidate, so it ends on an index satisfying `IsClosest`. |
| `LinePath.ClosestIsUnique` | Obstacles.py:119-121 | At most one index is nearest with all lower indices strictly farther, so the search result is fully determined. |
| `LinePath.SingleWaypointIsClosest` | Obstacles.py:113-123 | On a path of one waypoint the search returns index 0 wherever the robot is. |
| `LinePath.Window` | Obstacles.py:97 | The slice `[max(0, idx-5), min(n, idx+5))` contains `idx`, lies inside the path, and holds at most 10 waypoints. A waypoint is in it exactly when it is at most 5 before `idx` and fewer than 5 after it. |
| `Sensors.Score` | Obstacles.py:89 | `max(0, 1 - d/2)` lies in [0, 1] for any distance. It is 1 exactly at distance 0, and above 0.5 exactly below distance 1. |
| `Sensors.ScoreAntitone` | Obstacles.py:89 | A nearer line never scores lower. |
| `Sensors.MinDist` | Obstacles.py:96-99 | The minimum over a non-empty slice is the distance to one of its waypoints and no larger than the distance to any of them. |
| `Sensors.SideScore` | Obstacles.py:96-102 | A side sensor scores, in [0, 1], the best score any waypoint of the window gives its probe point. |
| `Sensors.Read` | Obstacles.py:79-109 | All scores lie in [0, 1]. The center is the best score over the whole path, and it is 1 exactly when the robot stands on a waypoint. Left and right are the best scores over the window around the nearest waypoint, from probes one unit left and right. The detector fires exactly when some obstacle has the robot within `size + 3`. |
| `Sensors.BestScoreSeesLine` | Obstacles.py:89 | A best score over a range of waypoints exceeds 0.5 exactly when some waypoint in the range is less than one unit from the probe. |
| `Sensors.OnWaypointCenterIsOne` | Obstacles.py:87-89 | A robot standing on any waypoint reads 1 on its center sensor. |
| `Pid.Step` | Obstacles.py:128-143 | The integral grows by the error, and the error is left minus right and becomes the previous error. The steering is the error weighted by all three gains, plus `Ki` times the old integral, minus `Kd` times the old error. From zero memory a balanced reading neither steers nor changes the memory. |
| `Pid.RunSnoc` | Obstacles.py:125-143 | Running one more controller step after a run gives the run one step longer. |
| `Pid.RunClosedForm` | Obstacles.py:125-143 | After any run of steps, the integral is the initial integral plus the summed errors, and the previous error is the last error. The total steering is `Kp` times the summed errors, plus `Ki` times the summed running integrals, plus `Kd` times the change from the remembered error to the last one. |
| `Pid.FreshRun` | Obstacles.py:45-46 | From the constructor's zero memory, the integral is the sum of the errors, and the total steering is determined by the errors alone. |
| `Pid.SymmetricRunDoesNotSteer` | Obstacles.py:128-141 | From zero memory, readings with equal left and right scores never steer, and the memory stays zero. |
| `Robot.New` | Obstacles.py:21-46 | The constructor puts the robot at the start with direction 0, in the follow-line state, with no obstacles and zero controller memory. It keeps a non-empty given path and otherwise takes the default path, so the path is never empty. |
| `Robot.NewUsesDefaultPath` | Obstacles.py:33 | Without a usable path, the robot's path has 100 waypoints and waypoint `i` has x = `i`. |
| `Robot.AddObstacleDetects` | Obstacles.py:58-60 | Adding an obstacle adds exactly the detections within its reach: at any position the detector fires afterwards exactly when it fired before or the position is closer to the new obstacle than its size plus 3. |
| `Robot.GenerateObstacles` | Obstacles.py:62-77 | One obstacle is appended per draw and the existing ones are kept. Each new obstacle lies at most 10 from some waypoint on each axis and at least 2 from it on one axis. Its size lies between 1 and the maximum size. |
| `Robot.ReadSensors` | Obstacles.py:79-109 | Reading the sensors replaces only the robot's readings, with those of `Sensors.Read` at its position, and leaves every score in [0, 1]. |
| `Robot.Follow` | Obstacles.py:125-143 | The error is left minus right. The integral grows by the error before use, and the returned steering is `Kp·error + Ki·integral + Kd·(error − previous error)`. The direction grows by exactly that steering, the previous error becomes the error, and nothing else changes. |
| `Robot.Avoid` | Obstacles.py:145-162 | The direction grows by 30 and nothing else changes. The result is true exactly when no obstacle has, within `size + 1`, the point two speed units ahead along the new heading. |
| `Robot.SearchSeesLine` | Obstacles.py:164-175 | After the sensors are read, the search reports the line exactly when the robot is less than one unit from some waypoint, or a side probe is less than one unit from some waypoint of the window around the nearest one. |
| `Robot.ProbeDirection` | Obstacles.py:151-154 | The probe point is to the right of the robot exactly when the heading is positive, and ahead in y exactly when the signed heading is below 360. |
| `Robot.BehaveTransitions` | Obstacles.py:183-203 | The state machine makes only the transitions of `Allowed`. It changes only the state, direction and controller memory, and the memory changes only on a tick that starts and ends in the follow-line state. |
| `Robot.MoveDirection` | Obstacles.py:205-209 | Only the position changes. x grows exactly when the heading is positive, and y grows exactly when the heading's magnitude is below 360. |
| `Robot.Update` | Obstacles.py:177-209 | Sensors are read first, and the path and obstacles do not change. Follow turns to avoid exactly when the detector fires, with no steering that tick, and otherwise steers by one controller step. Avoid turns to find-line exactly when the probe is clear, always turning 30. Find-line turns to follow exactly when a sensor sees the line, always turning 10. Only the transitions of `Allowed` occur. The position then moves by `(speed·dir/360, speed·(1 − abs(dir)/360))`. |
| `Robot.FollowsWithoutObstacles` | Obstacles.py:183-189 | With no obstacles, a following robot is still following after a tick. |
| `Robot.ObstacleOnRobotTriggersAvoidance` | Obstacles.py:104-109 | An obstacle of positive size at the robot's position makes a following robot switch to avoidance, without steering. |
| `Robot.ProbeVersusMotion` | Obstacles.py:151-154 | For a non-negative heading, the avoidance probe is where two ticks of motion lead. For a negative heading, the probe lies further along y, because the integrator uses the heading's magnitude. |
| `Robot.RunTransitions` | Obstacles.py:183-203 | In any run of ticks every state change is one the state machine has, so avoidance never leads straight back to following. |
| `Robot.Simulate` | Obstacles.py:216-218 | The trace starts at the given robot and each element is one `Update` after the previous one. Path and obstacles stay fixed, and every transition is allowed. Without obstacles, a robot that starts out following follows at every tick. |
| `Maze.Filled` | Maze.py:4 | The initial grid has `height` rows of `width` positions, all wall. |
| `Maze.OpenCount` | Maze.py:7 | Opening a position removes exactly one wall when it was a wall, and none otherwise. |
| `Maze.ShuffleHasAll` | Maze.py:8-9 | A shuffle of the four moves has four entries and contains every move. |
| `Maze.CarvePath` | Maze.py:6-14 | The carver returns a grid of the same shape with its own cell open. It changes only positions on the lattice of cells and the walls between them, and only to open. The wall count strictly decreases, which is the termination measure. Every cell it opened, its own included, has no wall left among its inside neighbours. |
| `Maze.CarveToward` | Maze.py:10-14 | One pass of the move loop keeps everything the carver maintains: its own cell stays open, the grid is still carved from the one it was given with fewer walls, the moves tried so far now include this one (each leads outside the bounds or to a cell that is not a wall), and every other cell opened so far has no wall left among its inside neighbours. |
| `Maze.AllCellsOpen` | Maze.py:16-17 | If the start cell is open and every open cell has open neighbours, every cell is open. |
| `Maze.AllCellsCarved` | Maze.py:3-17 | Carving the all-wall grid from (1, 1) opens every cell at odd coordinates inside the border. |
| `Maze.PlaceExit` | Maze.py:20-23 | Only the last column changes. It holds `E` exactly in the first row whose column `width-2` is open, and in no row if there is none. |
| `Maze.ExitKeepsShape` | Maze.py:18-25 | After the exit is cut: the start is `S`, and every position is `#`, a space, `S` or `E`. The border is wall except (1, 1) and the exit. The even-even pillars are wall. Every cell other than the start is open. |
| `Maze.ExitPlacement` | Maze.py:20-23 | `E` appears only in the last column, in exactly the first row whose column `width-2` is open, so at most once. There is none for an even width, and it is in row 1 for an odd width of at least 5. |
| `Maze.MakeMaze` | Maze.py:3-25 | The maze has `height` rows of `width` positions and `S` at (1, 1). Every position is `#`, a space, `S` or `E`. The border and the even-even pillars are wall, except (1, 1) and the exit. Every cell other than the start is open. At most one `E` sits in the last column, in the first row whose column `width-2` is open. |

## Left out

- Printing, `time.sleep` and the console driver `run_simulation` (`Obstacles.py:211-222`) are not modelled. `Robot.Simulate` keeps only its loop of ticks.
- The `__main__` demo, `print_maze` and the module-level script of `Maze.py` are not modelled: they only drive I/O.
- Randomness is left out. `generate_random_obstacles` takes its draws as inputs that already satisfy the rejection loop's exit condition. Whether that loop terminates is not modelled. `make_maze` takes the shuffle as the parameter `order`.
- IEEE-754 rounding and `**0.5` are left out. Numbers are exact reals, and the Euclidean distance is the parameter `dist`, of which the robot's proofs assume only `Geometry.IsDistance`. `Obstacles.InPathBySquares` relates `is_in_path` to the squared-distance formula under `Geometry.IsEuclidean`. That a zero sum of squares means equal points is not derived from `IsEuclidean`, because Dafny's solver does not reliably prove it; `IsDistance` states it instead.
- The initial `None` sensor readings are left out. The model starts with zero readings, since `update` always reads the sensors before using them.
- Default arguments are not modelled as defaults: `start_position=(0, 0)` (`Obstacles.py:21`), `size=1` (`Obstacles.py:58`), and `count=5, max_size=2` (`Obstacles.py:62`). Callers pass these values explicitly; the threshold default of `is_in_path` is the constant `Obstacles.DefaultThreshold`.
- Python's recursion-depth limit in `carve_path` is not modelled.
- `Maze.CarvePath`: the model requires the cell to be a wall and inside the border, with odd coordinates. Every call in `Maze.py` meets this: the bounds and wall test guard the recursive call, and the first call is at (1, 1). For a width or height of 2, `Maze.MakeMaze` opens (1, 1) directly instead of calling the carver, which is what `carve_path(1, 1)` does there: no move passes the bounds test.
- `Maze.MakeMaze`: widths or heights below 2 make `make_maze` fail with an index error. The model requires both to be at least 2.
