// FinalRobot: the carrot-chasing waypoint follower. One control cycle picks a
// carrot point further along the path, steers toward it with a parabolic
// speed law, and lets a laser check override the command near obstacles.
module FinalRobot {
  import opened JavaRuntime
  import opened Angles
  import opened SuppliedFiles

  const SPEED_CONSTANT: real := -0.000123456790123
  const DIST_TO_GOAL: int := 1
  const DIST_TO_TARGET_MIN: real := 0.8
  const DIST_TO_NEXT_CP: real := 0.5
  const ANGLE_TO_NEXT_CP: real := 50.0

  // The collision guard looks at echoes [GUARD_FIRST_BEAM, GUARD_END_BEAM).
  const GUARD_FIRST_BEAM: int := 120
  const GUARD_END_BEAM: int := 150
  const SAFE_DISTANCE: real := 0.7
  const CREEP_SPEED: real := 0.2
  const GUARD_TURN_RATE: real := 1.4

  // ---------------------------------------------------------------------
  // Speed law (one iteration of calculateAndMove)
  // ---------------------------------------------------------------------

  /** Linear speed for a heading error in degrees: a downward parabola that
      is 1 when aimed straight at the target, and 0 beyond +-90 degrees. */
  function LinearSpeed(angleDiff: real): (speed: real)
    ensures Abs(angleDiff) > 90.0 ==> speed == 0.0
    ensures 0.0 <= speed <= 1.0
    ensures speed == 1.0 <==> angleDiff == 0.0
  {
    if Abs(angleDiff) > 90.0 then 0.0
    else
      SquareMonotone(Abs(angleDiff), 90.0);
      SquareMonotone(0.0, Abs(angleDiff));
      assert angleDiff * angleDiff == Abs(angleDiff) * Abs(angleDiff);
      ScaleBySpeedConstant(angleDiff * angleDiff, 8100.0);
      ScaleBySpeedConstant(0.0, angleDiff * angleDiff);
      SPEED_CONSTANT * (angleDiff * angleDiff) + 1.0
  }

  lemma SquareMonotone(a: real, b: real)
    requires 0.0 <= a <= b
    ensures a * a <= b * b
    ensures a < b ==> a * a < b * b
  {
    assert b * b - a * a == (b - a) * (b + a);
    ProductSign(b - a, b + a);
  }

  lemma ProductSign(x: real, y: real)
    requires 0.0 <= x && 0.0 <= y
    ensures 0.0 <= x * y
    ensures 0.0 < x && 0.0 < y ==> 0.0 < x * y
  {
  }

  /** SPEED_CONSTANT is negative, so multiplying by it reverses order. */
  lemma ScaleBySpeedConstant(a: real, b: real)
    requires a <= b
    ensures SPEED_CONSTANT * b <= SPEED_CONSTANT * a
    ensures a < b ==> SPEED_CONSTANT * b < SPEED_CONSTANT * a
  {
    var k := SPEED_CONSTANT;
    assert k < 0.0;
    assert k * b - k * a == k * (b - a);
  }

  /** SPEED_CONSTANT is -1/8100 cut short after 15 digits, so at exactly 90
      degrees the speed is not 0 but a residual 3.7e-12; just past 90 the
      cut-off makes it 0. */
  lemma LinearSpeedResidualAtRightAngle()
    ensures LinearSpeed(90.0) == 0.0000000000037
    ensures LinearSpeed(-90.0) == 0.0000000000037
  {
  }

  /** The speed never grows as the heading error grows, and shrinks strictly
      while the error is within +-90 degrees. */
  lemma LinearSpeedDecreasing(smaller: real, larger: real)
    requires Abs(smaller) <= Abs(larger)
    ensures LinearSpeed(larger) <= LinearSpeed(smaller)
    ensures Abs(smaller) < Abs(larger) <= 90.0 ==> LinearSpeed(larger) < LinearSpeed(smaller)
  {
    if Abs(larger) <= 90.0 {
      SquareMonotone(Abs(smaller), Abs(larger));
      assert smaller * smaller == Abs(smaller) * Abs(smaller);
      assert larger * larger == Abs(larger) * Abs(larger);
      ScaleBySpeedConstant(smaller * smaller, larger * larger);
    }
  }

  /** The `angle` variable of calculateAndMove: twice the heading error, in
      radians. */
  function TurnAngle(angleDiff: real): (angle: real)
    ensures angle > 0.0 <==> angleDiff > 0.0
    ensures angle < 0.0 <==> angleDiff < 0.0
  {
    DegreesToRadians(angleDiff) * 2.0
  }

  /** The command calculateAndMove builds before the collision guard runs. */
  function DraftCommand(angleDiff: real): (c: DriveCommand)
    ensures Abs(angleDiff) > 90.0 ==> c.linearSpeed == 0.0
    ensures 0.0 <= c.linearSpeed <= 1.0
    // turn against the heading error, and not at all when aimed
    ensures c.angularSpeed < 0.0 <==> angleDiff > 0.0
    ensures c.angularSpeed > 0.0 <==> angleDiff < 0.0
    ensures c.angularSpeed + TurnAngle(angleDiff) == 0.0
  {
    DriveCommand(LinearSpeed(angleDiff), -TurnAngle(angleDiff))
  }

  /** The heading error of one cycle, in degrees: the robot's heading
      (radians, converted with 180/PI) against the bearing to the carrot
      (radians, converted with Math.toDegrees). */
  function HeadingError(headingRadians: real, bearingRadians: real): (d: real)
    ensures -180.0 <= d < 180.0
    ensures WholeTurns(RadiansToDegrees(headingRadians) - RadiansToDegrees(bearingRadians) - d)
  {
    AngleDiff(RadiansToDegrees(headingRadians), RadiansToDegrees(bearingRadians))
  }

  // ---------------------------------------------------------------------
  // Collision guard
  // ---------------------------------------------------------------------

  /** turnHeading: -1 for a positive angle, +1 otherwise. */
  function TurnHeading(angle: real): (sign: real)
    ensures sign == 1.0 || sign == -1.0
    ensures sign < 0.0 <==> angle > 0.0
  {
    if angle > 0.0 then -1.0 else 1.0
  }

  /** Some echo in the guarded sector is closer than the safe distance. */
  predicate ObstacleAhead(echoes: seq<real>)
    requires |echoes| >= GUARD_END_BEAM
  {
    exists i :: GUARD_FIRST_BEAM <= i < GUARD_END_BEAM && echoes[i] < SAFE_DISTANCE
  }

  /** collisionDetection: scan echoes 120..149; every one closer than 0.7
      overwrites the command with a creep speed of 0.2 and a turn rate of
      1.4 whose sign is turnHeading(angle). Fewer than 150 echoes make the
      scan index past the end of the array. */
  method CollisionDetection(ddr: DriveCommand, angle: real, echoes: seq<real>)
    returns (r: Result<DriveCommand>)
    ensures r.Success? <==> |echoes| >= GUARD_END_BEAM
    ensures r.Failure? ==>
              r.error == IndexOutOfBounds(if |echoes| < GUARD_FIRST_BEAM then GUARD_FIRST_BEAM else |echoes|)
    ensures r.Success? && !ObstacleAhead(echoes) ==> r.value == ddr
    ensures r.Success? && ObstacleAhead(echoes) ==>
              r.value == DriveCommand(CREEP_SPEED, if angle > 0.0 then -GUARD_TURN_RATE else GUARD_TURN_RATE)
  {
    var command := ddr;
    for i := GUARD_FIRST_BEAM to GUARD_END_BEAM
      invariant GUARD_FIRST_BEAM < i ==> i <= |echoes|
      invariant command == if exists k :: GUARD_FIRST_BEAM <= k < i && echoes[k] < SAFE_DISTANCE
                           then DriveCommand(CREEP_SPEED, TurnHeading(angle) * GUARD_TURN_RATE)
                           else ddr
    {
      if i >= |echoes| {
        return Failure(IndexOutOfBounds(i));
      }
      if echoes[i] < SAFE_DISTANCE {
        command := command.(angularSpeed := TurnHeading(angle) * GUARD_TURN_RATE);
        command := command.(linearSpeed := CREEP_SPEED);
      }
    }
    return Success(command);
  }

  /** The body of calculateAndMove's loop, without its I/O: the pose, the
      bearing to the carrot and the laser echoes are inputs, and the command
      it would send is the result. */
  method CalculateAndMoveStep(headingRadians: real, bearingRadians: real, echoes: seq<real>)
    returns (r: Result<DriveCommand>)
    ensures r.Success? <==> |echoes| >= GUARD_END_BEAM
    ensures r.Success? && !ObstacleAhead(echoes) ==>
              r.value == DraftCommand(HeadingError(headingRadians, bearingRadians))
    ensures r.Success? && ObstacleAhead(echoes) ==>
              && r.value.linearSpeed == CREEP_SPEED
              && (r.value.angularSpeed == -GUARD_TURN_RATE <==> HeadingError(headingRadians, bearingRadians) > 0.0)
              && (r.value.angularSpeed == GUARD_TURN_RATE <==> HeadingError(headingRadians, bearingRadians) <= 0.0)
  {
    var robotHeading := RadiansToDegrees(headingRadians);
    var targetAngle := RadiansToDegrees(bearingRadians);
    var angleDiff := AngleDiff(robotHeading, targetAngle);
    var speed := if Abs(angleDiff) > 90.0 then 0.0 else SPEED_CONSTANT * (angleDiff * angleDiff) + 1.0;
    var angle := DegreesToRadians(angleDiff) * 2.0;
    var ddr := DriveCommand(speed, -angle);
    r := CollisionDetection(ddr, angle, echoes);
  }

  /** Whenever the draft command turns at all, the guard's override turns the
      same way, not the opposite way. */
  lemma GuardKeepsTurnDirection(angleDiff: real)
    requires angleDiff != 0.0
    ensures var angle := TurnAngle(angleDiff);
            var overridden := (if angle > 0.0 then -GUARD_TURN_RATE else GUARD_TURN_RATE);
            (overridden < 0.0 <==> DraftCommand(angleDiff).angularSpeed < 0.0)
  {
  }

  /** The override need not change the angular speed: at a heading error of
      126/PI degrees the draft already turns at -1.4. */
  lemma GuardMayKeepAngularSpeed()
    ensures var d := 126.0 / PI;
            DraftCommand(d).angularSpeed == -GUARD_TURN_RATE && TurnAngle(d) > 0.0
  {
    var d := 126.0 / PI;
    assert TurnAngle(d) == d * (PI / 180.0) * 2.0;
    assert d * PI == 126.0;
  }

  /** The override's fixed rate of 1.4 is faster than the draft's turn only
      for errors within 126/PI (about 40.1) degrees; beyond that the draft
      turns faster, so the override slows the turn down. */
  lemma GuardTurnRateComparison(angleDiff: real)
    ensures DraftCommand(angleDiff).angularSpeed < -GUARD_TURN_RATE <==> angleDiff > 126.0 / PI
    ensures DraftCommand(angleDiff).angularSpeed > GUARD_TURN_RATE <==> angleDiff < -126.0 / PI
  {
    assert DraftCommand(angleDiff).angularSpeed == -(angleDiff * PI / 90.0);
  }

  // ---------------------------------------------------------------------
  // Goal test
  // ---------------------------------------------------------------------

  /** hasReachedGoal: within DIST_TO_GOAL of the carrot AND the cursor past
      80% of the path. */
  predicate HasReachedGoal(distanceToCarrot: real, index: int, size: int) {
    distanceToCarrot <= DIST_TO_GOAL as real && index as real > size as real * 0.8
  }

  /** Both conditions are needed: near the carrot at 90% progress of a
      10-point path is the goal, the same nearness at 20% is not. */
  lemma GoalNeedsProgress(distanceToCarrot: real)
    requires distanceToCarrot <= 1.0
    ensures HasReachedGoal(distanceToCarrot, 9, 10)
    ensures !HasReachedGoal(distanceToCarrot, 2, 10)
  {
  }

  // ---------------------------------------------------------------------
  // Carrot planning
  // ---------------------------------------------------------------------

  /** The two look-ahead tests of isShortDistance: the next waypoint is about
      as far from the robot as the current one, and in about the same
      direction. */
  predicate CloseAhead(robot: RobotPosition, currentCP: Position, nextCP: Position) {
    && Abs(robot.distanceTo(currentCP) - robot.distanceTo(nextCP)) < DIST_TO_NEXT_CP
    && Abs(AngleDiff(robot.bearingTo(currentCP), robot.bearingTo(nextCP))) < ANGLE_TO_NEXT_CP
  }

  /** isShortDistance, with its guard on the cursor. */
  predicate IsShortDistance(robot: RobotPosition, currentCP: Position, nextCP: Position, index: int, size: int) {
    if size < index then false else CloseAhead(robot, currentCP, nextCP)
  }

  /** getBearingTo answers in radians, yet isShortDistance hands those to the
      degree-based angle difference with a 50-degree limit: two bearings in
      [-PI, PI] always pass, so only the distance test decides. */
  lemma AngleTestAlwaysPasses(robot: RobotPosition, currentCP: Position, nextCP: Position)
    requires -PI <= robot.bearingTo(currentCP) <= PI
    requires -PI <= robot.bearingTo(nextCP) <= PI
    ensures CloseAhead(robot, currentCP, nextCP) <==>
              Abs(robot.distanceTo(currentCP) - robot.distanceTo(nextCP)) < DIST_TO_NEXT_CP
  {
    AngleDiffIdentity(robot.bearingTo(currentCP), robot.bearingTo(nextCP));
  }

  /** What carrotPlanning returns, and the cursor it leaves behind. */
  datatype Plan = Plan(carrot: Result<Option<Position>>, index: int)

  /** The skip loop of carrotPlanning from a loop head where the cursor is
      `index` and the candidate is `nextCP`; `currentCP` stays fixed. */
  function SkipFrom(path: seq<Position>, robot: RobotPosition, currentCP: Position, index: int, nextCP: Position): (p: Plan)
    requires 0 <= index < |path|
    decreases |path| - index
    ensures index <= p.index <= |path|
    ensures p.carrot != Success(None)
    // running off the end: every remaining waypoint was skipped
    ensures p.carrot.Failure? <==>
              && CloseAhead(robot, currentCP, nextCP)
              && forall k :: index < k < |path| ==> CloseAhead(robot, currentCP, path[k])
    ensures p.carrot.Failure? ==> p.carrot.error == IndexOutOfBounds(|path|) && p.index == |path|
    // stopping: the carrot fails the test, everything passed over met it
    ensures p.carrot.Success? ==>
              && p.index < |path|
              && p.carrot.value.value == (if p.index == index then nextCP else path[p.index])
              && !CloseAhead(robot, currentCP, p.carrot.value.value)
              && (p.index > index ==> CloseAhead(robot, currentCP, nextCP))
              && forall k :: index < k < p.index ==> CloseAhead(robot, currentCP, path[k])
  {
    if !IsShortDistance(robot, currentCP, nextCP, index, |path|) then
      Plan(Success(Some(nextCP)), index)
    else if index + 1 >= |path| then
      Plan(Failure(IndexOutOfBounds(index + 1)), index + 1)
    else
      SkipFrom(path, robot, currentCP, index + 1, path[index + 1])
  }

  /** carrotPlanning for a cursor `index` and the waypoint `currentCP` the
      caller read at it. */
  function CarrotPlan(path: seq<Position>, index: int, robot: RobotPosition, currentCP: Position): (p: Plan)
    requires 0 <= index
    // null exactly when there is no waypoint after the cursor
    ensures p.carrot == Success(None) <==> |path| <= index + 1
    ensures p.carrot == Success(None) ==> p.index == index
    // the cursor never moves back, and never stops one ahead
    ensures p.index >= index
    ensures p.index != index + 1
    ensures p.carrot.Success? && p.carrot.value.Some? ==>
              && p.index < |path|
              && p.carrot.value.value == path[if p.index == index then index + 1 else p.index]
              && !CloseAhead(robot, currentCP, p.carrot.value.value)
              && forall k :: index < k < p.index ==> CloseAhead(robot, currentCP, path[k])
    ensures p.carrot.Failure? <==>
              |path| > index + 1 && forall k :: index < k < |path| ==> CloseAhead(robot, currentCP, path[k])
    ensures p.carrot.Failure? ==> p.carrot.error == IndexOutOfBounds(|path|) && p.index == |path|
  {
    if |path| > index + 1 then SkipFrom(path, robot, currentCP, index, path[index + 1])
    else Plan(Success(None), index)
  }

  // ---------------------------------------------------------------------
  // Control loop
  // ---------------------------------------------------------------------

  /** A distance to the carrot at which calculateAndMove's drive loop,
      which runs while the distance exceeds DIST_TO_TARGET_MIN, has stopped. */
  type ArrivalDistance = d: real | d <= DIST_TO_TARGET_MIN witness 0.0

  /** How calculateAndMove's drive toward a carrot ends: with an exception
      (the guard's index failure, getEchoes' null or cast failure, a failed
      request), or with the robot close enough, at the distance it last
      measured from the pose it last read. */
  datatype DriveResult = DriveThrew(error: JavaError) | Arrived(distance: ArrivalDistance)

  /** What the outside world supplies in one cycle of run: the robot's
      position when the cycle starts, how the drive toward a non-null carrot
      ends, and the distance the goal test reads when the carrot is null. */
  datatype Observation = Observation(robot: RobotPosition, drive: DriveResult, distanceToNullCarrot: real)

  /** At any distance where the drive loop has stopped, the goal test's
      distance half holds, so hasReachedGoal reduces to the progress test. */
  lemma ArrivedGoalIsProgress(distance: ArrivalDistance, index: int, size: int)
    ensures HasReachedGoal(distance, index, size) <==> index as real > size as real * 0.8
  {
  }

  /** The distance hasReachedGoal reads: the pose is the one calculateAndMove
      last read, so after a drive it is the drive's final distance. */
  function GoalDistance(carrot: Option<Position>, observation: Observation): (d: real)
    requires carrot.Some? ==> observation.drive.Arrived?
    ensures carrot.Some? ==> d <= DIST_TO_TARGET_MIN
  {
    if carrot.Some? then observation.drive.distance else observation.distanceToNullCarrot
  }

  /** How run ends: past the path with a stop command, or with an exception
      that leaves the cursor at `cursor` and sends no stop command. */
  datatype RunOutcome =
    | Finished(finalIndex: int, cycles: nat, stop: DriveCommand)
    | Aborted(cycles: nat, error: JavaError, cursor: int)

  /** The result of one pass of run's loop body: the new cursor, or the
      exception that ends run and the cursor at that moment. */
  datatype Pass = Advanced(next: int) | Threw(error: JavaError, cursor: int)

  /** One pass of run's do-while body: plan, drive toward a non-null
      carrot, advance the cursor, and jump it to size + 1 when the goal test
      holds. */
  function Cycle(path: seq<Position>, index: int, observation: Observation): (r: Pass)
    requires 0 <= index < |path|
    ensures var plan := CarrotPlan(path, index, observation.robot, path[index]);
            && (r.Threw? <==> plan.carrot.Failure? || (plan.carrot.value.Some? && observation.drive.DriveThrew?))
            // the planner's exception comes first; the drive's only follows a non-null carrot
            && (r.Threw? && plan.carrot.Failure? ==> r.error == plan.carrot.error && r.cursor == |path|)
            && (r.Threw? && plan.carrot.Success? ==> r.error == observation.drive.error && r.cursor == plan.index)
            && (r.Threw? ==> index <= r.cursor <= |path|)
            && (r.Advanced? ==> r.next > index)
            // after a completed drive the robot is always near enough, so only progress decides
            && (r.Advanced? && plan.carrot.value.Some? ==>
                  (r.next == |path| + 1 <==> (plan.index + 1) as real > |path| as real * 0.8))
            && (r.Advanced? && plan.carrot.value.None? ==>
                  (r.next == |path| + 1 <==> HasReachedGoal(observation.distanceToNullCarrot, plan.index + 1, |path|)))
  {
    var plan := CarrotPlan(path, index, observation.robot, path[index]);
    if plan.carrot.Failure? then Threw(plan.carrot.error, plan.index)
    else if plan.carrot.value.Some? && observation.drive.DriveThrew? then Threw(observation.drive.error, plan.index)
    else if HasReachedGoal(GoalDistance(plan.carrot.value, observation), plan.index + 1, |path|) then Advanced(|path| + 1)
    else Advanced(plan.index + 1)
  }

  /** run's do-while loop from cursor `index` at cycle number `cycle`: it
      goes on while the new cursor is inside the path, ends with the stop
      command once it is not, and ends without it on an exception. */
  function RunLoop(path: seq<Position>, index: int, cycle: nat, world: nat -> Observation): (r: RunOutcome)
    requires 0 <= index < |path|
    decreases |path| - index
  {
    match Cycle(path, index, world(cycle))
    case Threw(e, cursor) => Aborted(cycle, e, cursor)
    case Advanced(next) =>
      if |path| > next then RunLoop(path, next, cycle + 1, world)
      else Finished(next, cycle + 1, STOP)
  }

  /** The loop ends with the cursor at `size` or `size + 1`, or aborts with
      the cursor inside [index, size], and it runs at most one pass per
      remaining waypoint, because every pass advances the cursor. */
  lemma {:induction false} RunLoopBounds(path: seq<Position>, index: int, cycle: nat, world: nat -> Observation)
    requires 0 <= index < |path|
    decreases |path| - index
    ensures var r := RunLoop(path, index, cycle, world);
            && (r.Finished? ==> |path| <= r.finalIndex <= |path| + 1 && cycle < r.cycles <= cycle + |path| - index
                                && r.stop == STOP)
            && (r.Aborted? ==> cycle <= r.cycles < cycle + |path| - index && index <= r.cursor <= |path|)
  {
    match Cycle(path, index, world(cycle))
    case Threw(e, cursor) =>
    case Advanced(next) =>
      if |path| > next {
        RunLoopBounds(path, next, cycle + 1, world);
      }
  }

  /** A pass whose planner throws, or whose drive toward a non-null carrot
      throws, ends the loop with that exception and the planner's cursor; a
      planner exception leaves that cursor at the path's end. */
  lemma RunLoopAborts(path: seq<Position>, index: int, cycle: nat, world: nat -> Observation,
                      carrot: Result<Option<Position>>, planned: int)
    requires 0 <= index < |path|
    requires Plan(carrot, planned) == CarrotPlan(path, index, world(cycle).robot, path[index])
    requires carrot.Failure? || (carrot.value.Some? && world(cycle).drive.DriveThrew?)
    ensures carrot.Failure? ==> planned == |path|
    ensures RunLoop(path, index, cycle, world) ==
              Aborted(cycle, if carrot.Failure? then carrot.error else world(cycle).drive.error, planned)
  {
  }

  /** A pass whose planner returns and whose drive (if any) returns moves
      the cursor forward to `next` (one past the planner's cursor, or past
      the end at the goal), and the loop goes on from there. */
  lemma RunLoopAdvances(path: seq<Position>, index: int, cycle: nat, world: nat -> Observation,
                        carrot: Result<Option<Position>>, planned: int, next: int)
    requires 0 <= index < |path|
    requires Plan(carrot, planned) == CarrotPlan(path, index, world(cycle).robot, path[index])
    requires carrot.Success? && (carrot.value.Some? ==> world(cycle).drive.Arrived?)
    requires next == if HasReachedGoal(GoalDistance(carrot.value, world(cycle)), planned + 1, |path|) then |path| + 1
                     else planned + 1
    ensures index < next
    ensures RunLoop(path, index, cycle, world) ==
              if |path| > next then RunLoop(path, next, cycle + 1, world) else Finished(next, cycle + 1, STOP)
  {
    assert Cycle(path, index, world(cycle)) == Advanced(next);
  }

  /** A pass that plans a carrot, drives to it, and leaves the cursor past
      80% of the path ends the run with the stop command: the robot never
      drives to the remaining waypoints. */
  lemma ArrivalPastEightyPercentFinishes(path: seq<Position>, index: int, cycle: nat,
                                           world: nat -> Observation)
    requires 0 <= index < |path|
    requires var plan := CarrotPlan(path, index, world(cycle).robot, path[index]);
             && plan.carrot.Success? && plan.carrot.value.Some? && world(cycle).drive.Arrived?
             && (plan.index + 1) as real > |path| as real * 0.8
    ensures RunLoop(path, index, cycle, world) == Finished(|path| + 1, cycle + 1, STOP)
  {
    var plan := CarrotPlan(path, index, world(cycle).robot, path[index]);
    ArrivedGoalIsProgress(world(cycle).drive.distance, plan.index + 1, |path|);
    assert Cycle(path, index, world(cycle)) == Advanced(|path| + 1);
  }

  /** run from the start: the cursor begins at 0. An empty path fails at
      the first `get(0)` with the cursor still at 0. */
  function RunSpec(path: seq<Position>, world: nat -> Observation): (r: RunOutcome)
    ensures |path| == 0 ==> r == Aborted(0, IndexOutOfBounds(0), 0)
    ensures |path| > 0 ==> r == RunLoop(path, 0, 0, world)
  {
    if |path| == 0 then Aborted(0, IndexOutOfBounds(0), 0) else RunLoop(path, 0, 0, world)
  }

  /** A run ends: the loop runs at most once per waypoint, a finished run
      ends past the last waypoint with a stop command, and an aborted one
      leaves the cursor within the path. */
  lemma RunSpecBounds(path: seq<Position>, world: nat -> Observation)
    ensures var r := RunSpec(path, world);
            && (r.Finished? ==> |path| <= r.finalIndex <= |path| + 1 && 1 <= r.cycles <= |path| && r.stop == STOP)
            && (r.Aborted? && |path| > 0 ==> r.cycles < |path|)
            && (r.Aborted? ==> 0 <= r.cursor <= |path|)
  {
    if |path| > 0 {
      RunLoopBounds(path, 0, 0, world);
    }
  }

  /** The robot: a fixed path and the cursor that run and carrotPlanning
      move along it. */
  class FinalRobot {
    const mapList: seq<Position>
    var mapListIndex: int

    constructor (path: seq<Position>)
      ensures mapList == path && mapListIndex == 0
    {
      mapList := path;
      mapListIndex := 0;
    }

    /** carrotPlanning: skip ahead while isShortDistance holds, comparing
        every candidate against `currentCP`. */
    method CarrotPlanning(robot: RobotPosition, currentCP: Position) returns (carrot: Result<Option<Position>>)
      requires 0 <= mapListIndex
      modifies this
      ensures Plan(carrot, mapListIndex) == CarrotPlan(mapList, old(mapListIndex), robot, currentCP)
    {
      if |mapList| > mapListIndex + 1 {
        ghost var goal := SkipFrom(mapList, robot, currentCP, mapListIndex, mapList[mapListIndex + 1]);
        var nextCP := mapList[mapListIndex + 1];
        while IsShortDistance(robot, currentCP, nextCP, mapListIndex, |mapList|)
          invariant 0 <= mapListIndex < |mapList|
          invariant SkipFrom(mapList, robot, currentCP, mapListIndex, nextCP) == goal
          decreases |mapList| - mapListIndex
        {
          mapListIndex := mapListIndex + 1;
          if mapListIndex >= |mapList| {
            return Failure(IndexOutOfBounds(mapListIndex));
          }
          nextCP := mapList[mapListIndex];
        }
        return Success(Some(nextCP));
      }
      return Success(None);
    }

    /** run: the outer control loop. `world(k)` is what cycle k observes;
        how calculateAndMove drives toward each carrot is left to the world,
        which says whether it threw. */
    method Run(world: nat -> Observation) returns (outcome: RunOutcome)
      modifies this
      ensures outcome == RunSpec(mapList, world)
      ensures outcome.Finished? ==> mapListIndex == outcome.finalIndex
      ensures outcome.Aborted? ==> mapListIndex == outcome.cursor
    {
      mapListIndex := 0;
      if |mapList| <= mapListIndex {
        return Aborted(0, IndexOutOfBounds(mapListIndex), mapListIndex);
      }
      var cycle: nat := 0;
      while true
        invariant 0 <= mapListIndex < |mapList|
        invariant RunLoop(mapList, mapListIndex, cycle, world) == RunSpec(mapList, world)
        decreases |mapList| - mapListIndex
      {
        var observation := world(cycle);
        ghost var start := mapListIndex;
        var nextCP := CarrotPlanning(observation.robot, mapList[mapListIndex]);
        if nextCP.Failure? {
          RunLoopAborts(mapList, start, cycle, world, nextCP, mapListIndex);
          return Aborted(cycle, nextCP.error, mapListIndex);
        }
        var distance := observation.distanceToNullCarrot;
        if nextCP.value.Some? {
          // calculateAndMove(robotLR, nextCP)
          match observation.drive
          case DriveThrew(e) =>
            RunLoopAborts(mapList, start, cycle, world, nextCP, mapListIndex);
            return Aborted(cycle, e, mapListIndex);
          case Arrived(d) =>
            distance := d;
        }
        ghost var planned := mapListIndex;
        mapListIndex := mapListIndex + 1;
        if HasReachedGoal(distance, mapListIndex, |mapList|) {
          mapListIndex := |mapList| + 1;
        }
        RunLoopAdvances(mapList, start, cycle, world, nextCP, planned, mapListIndex);
        cycle := cycle + 1;
        if |mapList| <= mapListIndex {
          return Finished(mapListIndex, cycle, STOP);
        }
      }
    }
  }
}
