// LekRobot: the earlier waypoint follower. It drives to every waypoint in
// turn with a bang-bang steering rule on the heading error.
module LekRobot {
  import opened JavaRuntime
  import opened Angles
  import opened SuppliedFiles

  /** calculateDifferenceBetweenAngles: the same floored-modulo normalisation
      as FinalRobot's calculateAngleDiff. */
  function CalculateDifferenceBetweenAngles(firstAngle: real, secondAngle: real): (r: real)
    ensures r == AngleDiff(firstAngle, secondAngle)
    ensures -180.0 <= r < 180.0
    ensures WholeTurns(firstAngle - secondAngle - r)
  {
    var diffangle := (firstAngle - secondAngle) + 180.0;
    var turns := diffangle / 360.0;
    (turns - turns.Floor as real) * 360.0 - 180.0
  }

  /** The heading error of one cycle: the robot's heading in degrees against
      the bearing to the waypoint, which is first converted to degrees and
      lifted into [0, 360) when negative. The lifting adds a whole turn, so
      it does not change the error. */
  function HeadingError(robotHeading: real, bearingRadians: real): (d: real)
    ensures d == AngleDiff(robotHeading, RadiansToDegrees(bearingRadians))
  {
    var targetAngle := RadiansToDegrees(bearingRadians);
    AngleDiffPeriodic(robotHeading, targetAngle, 1);
    CalculateDifferenceBetweenAngles(robotHeading, if targetAngle < 0.0 then targetAngle + 360.0 else targetAngle)
  }

  /** The command choice of calculateAndMove, for heading error `angleDiff`
      (degrees) and distance `targetDistance` (metres) to the waypoint,
      built by overwriting the request's fields in the order the code does. */
  method SelectCommand(angleDiff: real, targetDistance: real) returns (ddr: DriveCommand)
    // nearly aimed: full speed straight ahead
    ensures Abs(angleDiff) <= 2.0 ==> ddr == DriveCommand(1.0, 0.0)
    // turning: a fixed rate against the error, faster when facing away
    ensures 2.0 < Abs(angleDiff) <= 90.0 ==> ddr.angularSpeed == (if angleDiff < 0.0 then 0.6 else -0.6)
    ensures Abs(angleDiff) > 90.0 ==> ddr.angularSpeed == (if angleDiff > 0.0 then -1.0 else 1.0)
    // linear speed by band; beyond 30 degrees a far waypoint forces full speed
    ensures 2.0 < Abs(angleDiff) < 30.0 ==> ddr.linearSpeed == 0.8
    ensures Abs(angleDiff) == 30.0 ==> ddr.linearSpeed == 0.2
    ensures 30.0 < Abs(angleDiff) <= 90.0 ==> ddr.linearSpeed == (if targetDistance > 1.0 then 1.0 else 0.2)
    ensures Abs(angleDiff) > 90.0 ==> ddr.linearSpeed == (if targetDistance > 1.0 then 1.0 else 0.0)
    // never turns into the error, never drives backwards
    ensures ddr.angularSpeed * angleDiff <= 0.0
    ensures 0.0 <= ddr.linearSpeed <= 1.0
  {
    ddr := DriveCommand(0.0, 0.0);
    if Abs(angleDiff) > 2.0 {
      ddr := ddr.(linearSpeed := 0.2);
      ddr := ddr.(angularSpeed := 0.0);
      if angleDiff < 0.0 {
        ddr := ddr.(angularSpeed := 0.6);
      } else {
        ddr := ddr.(angularSpeed := -0.6);
      }
      if angleDiff > 90.0 || angleDiff < -90.0 {
        if angleDiff > 0.0 {
          ddr := ddr.(angularSpeed := -1.0);
        } else {
          ddr := ddr.(angularSpeed := 1.0);
        }
        ddr := ddr.(linearSpeed := 0.0);
      } else if Abs(angleDiff) < 30.0 {
        ddr := ddr.(linearSpeed := 0.8);
      }
      if Abs(angleDiff) > 30.0 && targetDistance > 1.0 {
        ddr := ddr.(linearSpeed := 1.0);
      }
    } else {
      ddr := ddr.(angularSpeed := 0.0);
      ddr := ddr.(linearSpeed := 1.0);
    }
  }

  /** A finished traversal: the waypoints handed to calculateAndMove, in
      order, and the command sent afterwards. */
  datatype Traversal = Traversal(targets: seq<Position>, stop: DriveCommand)

  /** start: a do-while over the waypoint indices; each waypoint is driven
      to once, in path order, then the robot is stopped. The do-while reads
      `get(0)` before testing the size, so an empty path throws. */
  method Start(path: seq<Position>) returns (r: Result<Traversal>)
    ensures r.Failure? <==> |path| == 0
    ensures r.Failure? ==> r.error == IndexOutOfBounds(0)
    ensures r.Success? ==> r.value.targets == path && r.value.stop == STOP
  {
    var i := 0;
    var targets: seq<Position> := [];
    while true
      invariant 0 <= i <= |path|
      invariant 0 < i ==> i < |path|
      invariant targets == path[..i]
      decreases |path| - i
    {
      if i >= |path| {
        return Failure(IndexOutOfBounds(i));
      }
      var nextPos := path[i];
      // calculateAndMove drives toward nextPos until within 0.5 m
      targets := targets + [nextPos];
      i := i + 1;
      if |path| <= i {
        break;
      }
    }
    return Success(Traversal(targets, STOP));
  }
}
