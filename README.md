# Waypoint-following robot: control logic in Dafny

This project models the decision logic of a differential-drive robot that
follows a path of waypoints. Each control cycle does four things:

- It reads the robot's pose.
- It picks a *carrot*, the next target on the path, and may skip waypoints that
  lie about as far away and in about the same direction as the current one.
- It turns the heading error into a linear and an angular speed.
- It lets a laser check override that command when something is close ahead.

Two robots are modelled:

- `FinalRobot` (carrot planner, parabolic speed law, collision guard, goal test).
- `LekRobot`, the earlier one (bang-bang steering, visits every waypoint).

Two supplied helpers are modelled too:

- The laser beam angle table of `TestRobotLaser`.
- The echo decoder of `LaserEchoesResponse`.

Java doubles are modelled as exact reals, and `Math.PI` as the real
3.141592653589793. The network is replaced by parameters:

- the robot's position, as its `getDistanceTo` and `getBearingTo` answers;
- the heading;
- the laser echoes;
- what each cycle observes.

Modules, one per source file plus shared pieces:

- `JavaRuntime` (`java_runtime.dfy`): the Java exceptions involved, `Result`/`Option`, the `(int)` cast.
- `Angles` (`angles.dfy`): degree/radian conversion and the angle-difference normalisation.
- `SuppliedFiles` (`supplied_files.dfy`): drive commands, positions, decoded JSON values, `getEchoes`.
- `FinalRobot` (`final_robot.dfy`): speed law, collision guard, goal test, carrot planner, control loop.
  The class `FinalRobot.FinalRobot` holds the path and the cursor `mapListIndex` that
  `carrotPlanning` and `run` update in place. Both methods are proved equal to
  specification functions (`CarrotPlan`, `RunSpec`), and the properties are proved
  about those functions.
- `LekRobot` (`lek_robot.dfy`): angle difference, steering rule, waypoint loop.
- `TestRobotLaser` (`test_robot_laser.dfy`): beam count and beam angle table.

### Behaviour of the code worth knowing (the model follows the code)

- The angle difference lies in [-180, 180), not in (-180, 180]. The value -180
  is produced, and 180 never is.
- The collision override turns the same way as the draft command, at a fixed
  rate of 1.4. It does not turn away from the direction the robot was turning
  (`GuardKeepsTurnDirection`). That rate is faster than the draft's only for
  errors within 126/PI (about 40.1) degrees; beyond that the override slows
  the turn down (`GuardTurnRateComparison`).
- The override does not always change the angular speed
  (`GuardMayKeepAngularSpeed`).
- `isShortDistance` passes bearings in radians to the degree-based difference
  and compares the result with 50. For bearings in [-PI, PI] the angle test
  always passes (`AngleTestAlwaysPasses`).
- The carrot planner has no bound check. Skipping past the last waypoint throws
  `IndexOutOfBounds`, and `run` aborts without sending the stop command.
- On its first skip the planner re-reads `path[index + 1]`. So it never stops
  one waypoint ahead, and a carrot reached by skipping is `path[final index]`.
- The goal test moves the cursor to `size + 1`, one past the path length.
- The run ends after the first completed drive that leaves the cursor past 80%
  of the path. `calculateAndMove` returns only once the robot is within 0.8 of
  the carrot, and `hasReachedGoal` reads that same pose and carrot, so its
  distance half (at most 1) always holds after a drive
  (`ArrivedGoalIsProgress`, `ArrivalPastEightyPercentFinishes`). On a
  100-point path the robot is stopped after the first drive that leaves the
  cursor above 80, and the remaining waypoints are never driven to.

## Model

| member | source | states |
|---|---|---|
| `JavaRuntime.DoubleToInt` | Robotics/src/testRobots/TestRobotLaser.java:154-155 | The `(int)` cast truncates toward zero inside the int range and saturates outside it. |
| `Angles.AngleDiff` | Robotics/src/Robot/FinalRobot.java:353-358 | The result lies in [-180, 180) and differs from `first - second` by a whole number of turns. |
| `Angles.AngleDiffUnique` | Robotics/src/Robot/FinalRobot.java:353-358 | Any r in [-180, 180) that differs from `first - second` by whole turns equals the result. With `AngleDiff`'s contract this gives an if-and-only-if. |
| `Angles.AngleDiffIdentity` | Robotics/src/Robot/FinalRobot.java:353-358 | A difference already in [-180, 180) comes back unchanged. |
| `Angles.AngleDiffSelf` | Robotics/src/Robot/FinalRobot.java:353-358 | The difference of an angle with itself is 0. |
| `Angles.AngleDiffAntisymmetric` | Robotics/src/Robot/FinalRobot.java:353-358 | Swapping the arguments negates the result, except when the result is -180. |
| `Angles.AngleDiffPeriodic` | Robotics/src/Robot/FinalRobot.java:353-358 | Adding whole turns to the second angle does not change the result. |
| `Angles.DegreesToRadians` | Robotics/src/Robot/FinalRobot.java:349-351 | The conversion keeps the sign of the angle (positive, negative or zero). |
| `Angles.RadiansToDegrees` | Robotics/src/Robot/FinalRobot.java:176-177 | `Math.toDegrees` and `* (180 / Math.PI)` keep the sign of the angle. |
| `Angles.DegreesRadiansRoundTrip` | Robotics/src/Robot/FinalRobot.java:349-351 | The two conversions undo each other. |
| `SuppliedFiles.EntryError` | Robotics/src/SuppliedFiles/LaserEchoesResponse.java:25-28 | A null entry throws NullPointerException; any other non-number entry throws ClassCastException. |
| `SuppliedFiles.GetEchoes` | Robotics/src/SuppliedFiles/LaserEchoesResponse.java:16-31 | A missing or null "Echoes" throws NullPointerException; a non-list throws ClassCastException. A list decodes exactly when every entry is a Double or an Integer. The result has the list's length and order: doubles are copied and integers widened. A failure carries the exception of the first bad entry. |
| `FinalRobot.LinearSpeed` | Robotics/src/Robot/FinalRobot.java:185-189 | Speed is 0 beyond 90 degrees of error and always lies in [0, 1]. It is 1 exactly when the error is 0. |
| `FinalRobot.LinearSpeedResidualAtRightAngle` | Robotics/src/Robot/FinalRobot.java:29 | Because SPEED_CONSTANT is -1/8100 cut short, the speed at exactly +-90 degrees is 3.7e-12, not 0. |
| `FinalRobot.LinearSpeedDecreasing` | Robotics/src/Robot/FinalRobot.java:185-189 | Speed never grows as the absolute error grows. Within 90 degrees it strictly falls. |
| `FinalRobot.TurnAngle` | Robotics/src/Robot/FinalRobot.java:191 | `angle` has the sign of the heading error. |
| `FinalRobot.DraftCommand` | Robotics/src/Robot/FinalRobot.java:185-194 | Before the guard, linear speed is in [0, 1] and is 0 beyond 90 degrees. The angular speed is the negated `angle`, so it is opposite in sign to the error and 0 when the error is 0. |
| `FinalRobot.HeadingError` | Robotics/src/Robot/FinalRobot.java:176-178 | The error lies in [-180, 180) and equals heading minus bearing, both in degrees, up to whole turns. |
| `FinalRobot.TurnHeading` | Robotics/src/Robot/FinalRobot.java:211-217 | The result is -1 or +1, and it is negative exactly when the angle is positive. |
| `FinalRobot.CollisionDetection` | Robotics/src/Robot/FinalRobot.java:333-346 | The guard succeeds exactly when there are at least 150 echoes; otherwise it fails at the first missing index. With no echo below 0.7 in 120..149 the command passes through unchanged. With one, the command becomes (0.2, -1.4 if angle > 0 else +1.4). |
| `FinalRobot.CalculateAndMoveStep` | Robotics/src/Robot/FinalRobot.java:174-198 | One cycle's command is the draft for the heading error, or the guard's override (0.2, -1.4 when the error is positive, +1.4 otherwise). It fails with fewer than 150 echoes. |
| `FinalRobot.GuardKeepsTurnDirection` | Robotics/src/Robot/FinalRobot.java:336-341 | For a nonzero error the override angular speed has the same sign as the draft's. |
| `FinalRobot.GuardMayKeepAngularSpeed` | Robotics/src/Robot/FinalRobot.java:191-194 | At an error of 126/PI degrees the draft already turns at -1.4, the override's value. |
| `FinalRobot.GuardTurnRateComparison` | Robotics/src/Robot/FinalRobot.java:191-194 | The draft turns faster than the override's 1.4 exactly when the error exceeds 126/PI degrees in size, in either direction. |
| `FinalRobot.HasReachedGoal` | Robotics/src/Robot/FinalRobot.java:160-163 | The goal test: distance to the carrot at most 1 and cursor above 0.8 times the path size. |
| `FinalRobot.ArrivedGoalIsProgress` | Robotics/src/Robot/FinalRobot.java:160-163 | At any distance where the drive loop has stopped (at most 0.8), the goal test holds exactly when the cursor exceeds 0.8 times the path size. |
| `FinalRobot.GoalDistance` | Robotics/src/Robot/FinalRobot.java:172-180 | The distance the goal test reads after a drive toward a non-null carrot is at most 0.8, the drive loop's exit bound. |
| `FinalRobot.GoalNeedsProgress` | Robotics/src/Robot/FinalRobot.java:160-163 | On a 10-point path, nearness counts as the goal at cursor 9 but not at cursor 2. |
| `FinalRobot.CloseAhead` | Robotics/src/Robot/FinalRobot.java:104-115 | The two skip tests: the distances to the current and next waypoint differ by less than 0.5, and the angle difference of their bearings is under 50 in size. |
| `FinalRobot.IsShortDistance` | Robotics/src/Robot/FinalRobot.java:100-116 | False when the cursor is past the path size, otherwise the two skip tests. |
| `FinalRobot.AngleTestAlwaysPasses` | Robotics/src/Robot/FinalRobot.java:100-116 | With bearings in [-PI, PI] radians, the skip test reduces to the distance test alone. |
| `FinalRobot.SkipFrom` | Robotics/src/Robot/FinalRobot.java:89-95 | The skip loop never moves the cursor back and never returns null. It throws `IndexOutOfBounds(size)` exactly when every remaining candidate passes the test. Otherwise it stops at a carrot that fails the test, having passed only candidates that met it, all compared with the fixed `currentCP`. |
| `FinalRobot.CarrotPlan` | Robotics/src/Robot/FinalRobot.java:79-98 | Null is returned, with the cursor unchanged, exactly when `size <= index + 1`. The cursor never decreases and never ends at `index + 1`. The carrot is `path[index + 1]` if nothing was skipped, else `path[final index]`. Running off the end happens exactly when every later waypoint passes the test. |
| `FinalRobot.Cycle` | Robotics/src/Robot/FinalRobot.java:130-147 | Apart from the HTTP exceptions listed under "Left out", a pass throws exactly when the planner throws, or when it returns a carrot and driving toward it throws. A planner exception leaves the cursor at `size`; a drive exception leaves it at the planner's cursor. Otherwise the cursor strictly increases. After a completed drive it becomes `size + 1` exactly when the planner's cursor plus one exceeds 0.8 * size. With a null carrot it does so exactly when the goal test (distance <= 1 and cursor > 0.8 * size) holds. |
| `FinalRobot.RunLoop` | Robotics/src/Robot/FinalRobot.java:130-152 | The do-while: it repeats while the new cursor is inside the path and sends (0, 0) once it is not. An exception ends it without the stop command. |
| `FinalRobot.RunLoopBounds` | Robotics/src/Robot/FinalRobot.java:130-152 | The loop finishes with the cursor at `size` or `size + 1`, or aborts with it between the start cursor and `size`, within `size - index` passes. Finishing sends the (0, 0) command. |
| `FinalRobot.RunLoopAborts` | Robotics/src/Robot/FinalRobot.java:130-140 | When carrotPlanning throws, or calculateAndMove throws for a non-null carrot, the loop ends with that exception and the planner's cursor. After a planner exception that cursor is the path's end. |
| `FinalRobot.RunLoopAdvances` | Robotics/src/Robot/FinalRobot.java:130-152 | When carrotPlanning and the drive return, the cursor moves strictly forward: one past the planner's cursor, or to `size + 1` at the goal. The loop then goes on from there, or finishes with (0, 0) once the cursor reaches `size`. |
| `FinalRobot.ArrivalPastEightyPercentFinishes` | Robotics/src/Robot/FinalRobot.java:136-152 | A pass that drives to a carrot and leaves the cursor above 0.8 * size finishes the run at `size + 1` with the stop command. |
| `FinalRobot.RunSpec` | Robotics/src/Robot/FinalRobot.java:125-134 | An empty path throws at `get(0)` with the cursor at 0; otherwise the run is the loop from cursor 0. |
| `FinalRobot.RunSpecBounds` | Robotics/src/Robot/FinalRobot.java:125-152 | A finished run takes 1 to `size` passes, ends past the last waypoint and sends (0, 0). An aborted run on a non-empty path takes fewer than `size` passes and leaves the cursor within [0, `size`]. |
| `FinalRobot.FinalRobot.constructor` | Robotics/src/Robot/FinalRobot.java:49-64 | The robot holds the given path with its cursor at 0. |
| `FinalRobot.FinalRobot.CarrotPlanning` | Robotics/src/Robot/FinalRobot.java:79-98 | The returned carrot and the new `mapListIndex` are those of `CarrotPlan` for the old cursor. |
| `FinalRobot.FinalRobot.Run` | Robotics/src/Robot/FinalRobot.java:125-152 | The outcome is `RunSpec` of the path. On finishing the cursor is the final index; on abort it is the cursor the outcome reports (the path length after a planner exception, 0 for an empty path). |
| `LekRobot.CalculateDifferenceBetweenAngles` | Robotics/src/Robot/LekRobot.java:223-229 | This is the same function as `AngleDiff`: in [-180, 180) and differing from `first - second` by whole turns. |
| `LekRobot.HeadingError` | Robotics/src/Robot/LekRobot.java:157-175 | Adding 360 to a negative bearing does not change the error: it equals `AngleDiff` of heading and bearing in degrees. |
| `LekRobot.SelectCommand` | Robotics/src/Robot/LekRobot.java:177-209 | Up to 2 degrees of error: (1, 0). Up to 90: angular is 0.6 against the error. Beyond 90: angular is 1 against the error. Linear is 0.8 below 30 degrees and 0.2 at exactly 30. Past 30 it is 1 when the target is over 1 m away, else 0.2 (up to 90) or 0 (beyond 90). Angular never has the error's sign, and linear stays in [0, 1]. |
| `LekRobot.Start` | Robotics/src/Robot/LekRobot.java:103-120 | A non-empty path is driven to waypoint by waypoint, in order, each once, then (0, 0) is sent. An empty path throws at `get(0)`. |
| `TestRobotLaser.BeamCount` | Robotics/src/testRobots/TestRobotLaser.java:154-155 | The beam count is `(end - start) / increment` truncated toward zero. A zero increment gives INT_MAX, INT_MIN or 0. |
| `TestRobotLaser.ReversedRangeIsNegative` | Robotics/src/testRobots/TestRobotLaser.java:154-156 | An end angle at least one positive increment below the start gives a negative count. |
| `TestRobotLaser.GetLaserAngles` | Robotics/src/testRobots/TestRobotLaser.java:152-166 | A negative count throws NegativeArraySizeException. Otherwise there are `count` angles, with `angles[i] == start + i` degrees in radians. So `angles[0] == start`, and neighbours differ by one degree, not by the reported increment. |

## Left out

- HTTP and JSON plumbing (`putRequest`, `getResponse`, `readFile`, `main`, the Jackson mapper) is network and file I/O. Poses, distances, bearings, echoes and path points are parameters instead.
- The drive-until-close loops of both `calculateAndMove` methods end when the physical robot gets close. Their termination depends on the robot, so one iteration is modelled (`FinalRobot.CalculateAndMoveStep`, `LekRobot.SelectCommand`). Inside `run` and `start`, driving to a target is left to the world. In `run` the world says how the drive ended (`FinalRobot.DriveResult`): with an exception, which aborts the run as in the code, or with the robot arrived at a distance of at most 0.8, a bound the type enforces.
- LekRobot.Start: an exception while driving to a waypoint is not modelled. LekRobot's `calculateAndMove` can throw only from its HTTP requests, which are I/O; the real loop would then end without the stop command.
- `Position.getDistanceTo` and `getBearingTo` belong to a class that is not part of this model. They presumably compute a Euclidean distance and an atan2 bearing; the bearing is in radians, since FinalRobot.java:176 passes it to `Math.toDegrees`. They are functions supplied with the robot's position (`RobotPosition`).
- `FinalRobot.Observation` carries the distance the goal test reads when the carrot is null. What `getDistanceTo(null)` does is unknown, so the world supplies a value. If it throws instead, the real run ends without the stop command.
- FinalRobot.Cycle: two HTTP exceptions of `run` are not modelled. One is a failing `getResponse` when a pass reads the pose (FinalRobot.java:133), which would end the run with the cursor unchanged. The other is a failing `putRequest` of the stop command (line 152), which would end a finished run without the stop being delivered. Both are network I/O.
- `getBearingAngle` (atan2 of quaternion parts) and the unused result of `positiveDegrees` are not modelled. LekRobot's heading is an input in degrees.
- The commented-out collision logic is dead code.
- Timing, logging and sleeps (`System.currentTimeMillis`, `SimpleDateFormat`, `println`, `Thread.sleep`) have no effect on decisions.
- Floating-point rounding is not modelled; doubles are exact reals. This covers the round-off in the beam-angle accumulator of `getLaserAngles`. The 3.7e-12 speed at exactly 90 degrees is not rounding: it comes from the truncated `SPEED_CONSTANT`, and the model keeps it (`LinearSpeedResidualAtRightAngle`). NaN and infinite inputs are not modelled either.
- Arrays returned by `getEchoes` and `getLaserAngles` are filled in a local array and returned as their contents, a sequence. No caller writes to them.
- `DifferentialDriveRequest` is a value that is reassigned field by field. No alias of it outlives the call that mutates it.
- The `(int)` beam count of INT_MAX is allocated as asked. The real JVM would fail with an out-of-memory error there.
- Integral JSON numbers outside the int range, which the decoder delivers as `Long`, appear as `JOther` and fail the cast, as in the code.
- `GUI.java`, `TestRobot.java`, `TestRobot2.java`, both `LaserPropertiesResponse.java` files and `Response.java` are UI, I/O demos or plain accessors. They are not part of this model.
