// Angle arithmetic shared by both robots: degree/radian conversion and the
// normalisation of a difference of two headings into one turn.
module Angles {

  /** The shortest decimal of Java's Math.PI, read as an exact real. */
  const PI: real := 3.141592653589793

  function Abs(x: real): real {
    if x < 0.0 then -x else x
  }

  /** `x` is a whole number of turns (an integer multiple of 360 degrees). */
  predicate WholeTurns(x: real) {
    (x / 360.0).Floor as real == x / 360.0
  }

  /** FinalRobot.calculateAngleDiff: `first - second` shifted by whole turns
      into [-180, 180), using floored modulo (`x - floor(x)`). */
  function AngleDiff(first: real, second: real): (r: real)
    ensures -180.0 <= r < 180.0
    ensures WholeTurns(first - second - r)
  {
    var diffAngle := (first - second) + 180.0;
    var turns := diffAngle / 360.0;
    var fraction := turns - turns.Floor as real;
    assert 0.0 <= fraction < 1.0;
    var r := fraction * 360.0 - 180.0;
    assert first - second - r == 360.0 * turns.Floor as real;
    assert (first - second - r) / 360.0 == turns.Floor as real;
    FloorOfWhole(turns.Floor);
    r
  }

  /** FinalRobot.degreesToRadians. */
  function DegreesToRadians(angle: real): (r: real)
    ensures r > 0.0 <==> angle > 0.0
    ensures r < 0.0 <==> angle < 0.0
  {
    angle * (PI / 180.0)
  }

  /** Math.toDegrees, and the explicit `x * (180 / Math.PI)` conversion. */
  function RadiansToDegrees(angle: real): (r: real)
    ensures r > 0.0 <==> angle > 0.0
    ensures r < 0.0 <==> angle < 0.0
  {
    angle * (180.0 / PI)
  }

  /** The two conversions are inverse to each other. */
  lemma DegreesRadiansRoundTrip(degrees: real, radians: real)
    ensures RadiansToDegrees(DegreesToRadians(degrees)) == degrees
    ensures DegreesToRadians(RadiansToDegrees(radians)) == radians
  {
  }

  /** AngleDiff is the ONLY value in [-180, 180) that differs from
      `first - second` by whole turns; with AngleDiff's own contract this is
      an if-and-only-if characterisation. */
  lemma AngleDiffUnique(first: real, second: real, r: real)
    requires -180.0 <= r < 180.0
    requires WholeTurns(first - second - r)
    ensures AngleDiff(first, second) == r
  {
    var a := AngleDiff(first, second);
    var x := first - second;
    var m := ((x - a) / 360.0).Floor;
    var n := ((x - r) / 360.0).Floor;
    assert x - a == 360.0 * m as real;
    assert x - r == 360.0 * n as real;
    assert a - r == 360.0 * (n - m) as real;
    assert -1 < n - m < 1;
  }

  /** A difference already inside [-180, 180) is returned unchanged. */
  lemma AngleDiffIdentity(first: real, second: real)
    requires -180.0 <= first - second < 180.0
    ensures AngleDiff(first, second) == first - second
  {
    assert WholeTurns(0.0);
    AngleDiffUnique(first, second, first - second);
  }

  /** The heading error of a heading with itself is zero. */
  lemma AngleDiffSelf(a: real)
    ensures AngleDiff(a, a) == 0.0
  {
    AngleDiffIdentity(a, a);
  }

  /** Swapping the arguments negates the result, except at the -180 end of
      the range, where -(-180) = 180 is not itself in range. */
  lemma AngleDiffAntisymmetric(a: real, b: real)
    requires AngleDiff(a, b) != -180.0
    ensures AngleDiff(b, a) == -AngleDiff(a, b)
  {
    var d := AngleDiff(a, b);
    WholeTurnsNegated(a - b - d);
    assert b - a - (-d) == -(a - b - d);
    AngleDiffUnique(b, a, -d);
  }

  lemma WholeTurnsNegated(x: real)
    requires WholeTurns(x)
    ensures WholeTurns(-x)
  {
    var m := (x / 360.0).Floor;
    assert -x / 360.0 == (-m) as real;
    FloorOfWhole(-m);
  }

  lemma FloorOfWhole(n: int)
    ensures (n as real).Floor == n
  {
  }

  /** Adding whole turns to the second argument does not change the result. */
  lemma AngleDiffPeriodic(first: real, second: real, k: int)
    ensures AngleDiff(first, second + 360.0 * k as real) == AngleDiff(first, second)
  {
    var d := AngleDiff(first, second);
    var m := ((first - second - d) / 360.0).Floor;
    assert first - (second + 360.0 * k as real) - d == 360.0 * (m - k) as real;
    assert (first - (second + 360.0 * k as real) - d) / 360.0 == (m - k) as real;
    AngleDiffUnique(first, second + 360.0 * k as real, d);
  }
}
