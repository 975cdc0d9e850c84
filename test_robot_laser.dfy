// TestRobotLaser: the table of laser beam angles built from the laser's
// reported start angle, end angle and angle increment (all in radians).
module TestRobotLaser {
  import opened JavaRuntime
  import opened Angles

  /** The step getLaserAngles really uses: one degree in radians. */
  const ONE_DEGREE: real := 1.0 * PI / 180.0

  /** The beam count `(int) ((end - start) / increment)`. A zero increment
      divides to +-Infinity or NaN in double arithmetic, which the cast turns
      into INT_MAX, INT_MIN or 0. */
  function BeamCount(startAngle: real, endAngle: real, angleIncrement: real): (n: Int32)
    // truncation toward zero of the quotient, within the int range
    ensures angleIncrement != 0.0 && 0.0 <= (endAngle - startAngle) / angleIncrement <= INT_MAX as real ==>
              n >= 0 && n as real <= (endAngle - startAngle) / angleIncrement < n as real + 1.0
    ensures angleIncrement != 0.0 && INT_MIN as real <= (endAngle - startAngle) / angleIncrement < 0.0 ==>
              n <= 0 && n as real - 1.0 < (endAngle - startAngle) / angleIncrement <= n as real
    ensures angleIncrement == 0.0 ==>
              n == (if endAngle > startAngle then INT_MAX else if endAngle < startAngle then INT_MIN else 0)
  {
    if angleIncrement == 0.0 then
      (if endAngle > startAngle then INT_MAX else if endAngle < startAngle then INT_MIN else 0)
    else
      DoubleToInt((endAngle - startAngle) / angleIncrement)
  }

  /** An end angle below the start angle, with a positive increment, gives a
      negative beam count once the gap is at least one increment wide; past
      2^31 increments the cast saturates at INT_MIN, still negative. */
  lemma ReversedRangeIsNegative(startAngle: real, endAngle: real, angleIncrement: real)
    requires 0.0 < angleIncrement <= startAngle - endAngle
    ensures BeamCount(startAngle, endAngle, angleIncrement) < 0
  {
    var q := (endAngle - startAngle) / angleIncrement;
    if INT_MIN as real <= q {
      assert q * angleIncrement == endAngle - startAngle;
      CancelPositive(q, -1.0, angleIncrement);
    }
  }

  lemma CancelPositive(x: real, y: real, c: real)
    requires 0.0 < c && x * c <= y * c
    ensures x <= y
  {
  }

  /** getLaserAngles: one angle per beam, starting at the start angle and
      stepping by one degree (not by the reported increment). */
  method GetLaserAngles(startAngle: real, endAngle: real, angleIncrement: real) returns (r: Result<seq<real>>)
    ensures r.Failure? <==> BeamCount(startAngle, endAngle, angleIncrement) < 0
    ensures r.Failure? ==> r.error == NegativeArraySize(BeamCount(startAngle, endAngle, angleIncrement))
    ensures r.Success? ==>
              && |r.value| == BeamCount(startAngle, endAngle, angleIncrement)
              && (forall i :: 0 <= i < |r.value| ==> r.value[i] == startAngle + i as real * ONE_DEGREE)
              && (|r.value| > 0 ==> r.value[0] == startAngle)
              && (forall i :: 0 < i < |r.value| ==> r.value[i] - r.value[i - 1] == ONE_DEGREE)
  {
    var beamCount := BeamCount(startAngle, endAngle, angleIncrement);
    if beamCount < 0 {
      return Failure(NegativeArraySize(beamCount));
    }
    var angles := new real[beamCount];
    var a := startAngle;
    for i := 0 to beamCount
      invariant a == startAngle + i as real * ONE_DEGREE
      invariant forall k :: 0 <= k < i ==> angles[k] == startAngle + k as real * ONE_DEGREE
    {
      angles[i] := a;
      a := a + 1.0 * PI / 180.0;
    }
    return Success(angles[..]);
  }
}
