// The supplied request/response types the robots use: the drive command they
// send and the laser echo response they decode.
module SuppliedFiles {
  import opened JavaRuntime

  /** DifferentialDriveRequest: a linear speed (positive is forward) and an
      angular speed. */
  datatype DriveCommand = DriveCommand(linearSpeed: real, angularSpeed: real)

  /** A waypoint or robot position (Position); z is not used by the robots. */
  datatype Position = Position(x: real, y: real)

  /** What the robot's current Position answers about any other position:
      getDistanceTo (metres) and getBearingTo (radians, as the robots' use of
      Math.toDegrees on it shows). The Position class is not part of this
      model; presumably it computes a Euclidean distance and an atan2
      bearing. Here both are given. */
  datatype RobotPosition = RobotPosition(distanceTo: Position -> real, bearingTo: Position -> real)

  /** The command both robots send once the path is done. */
  const STOP: DriveCommand := DriveCommand(0.0, 0.0)

  /** The Java objects the JSON decoder puts in a response's data map: it
      yields a Double for a number with a decimal point and an Integer
      otherwise; JOther stands for every other class (String, Long, Map...). */
  datatype JavaValue =
    | JDouble(d: real)
    | JInteger(n: Int32)
    | JList(items: seq<JavaValue>)
    | JNull
    | JOther

  /** An echo entry that getEchoes can turn into a double. */
  predicate IsNumber(v: JavaValue) {
    v.JDouble? || v.JInteger?
  }

  /** The exception getEchoes raises on an entry that is not a number:
      `(Integer) null` succeeds and then `.intValue()` dereferences null;
      any other class fails the cast. */
  function EntryError(v: JavaValue): (e: JavaError)
    requires !IsNumber(v)
    ensures e == NullPointer <==> v.JNull?
    ensures e == ClassCast <==> !v.JNull?
  {
    if v.JNull? then NullPointer else ClassCast
  }

  /** LaserEchoesResponse.getEchoes: the "Echoes" list of the response data,
      copied entry by entry into a fresh double array. */
  method GetEchoes(data: map<string, JavaValue>) returns (r: Result<seq<real>>)
    // a missing key or a JSON null reaches `echoes.toArray()` as null
    ensures ("Echoes" !in data || data["Echoes"].JNull?) ==> r == Failure(NullPointer)
    // anything else that is not a list fails the `(ArrayList)` cast
    ensures "Echoes" in data && !data["Echoes"].JNull? && !data["Echoes"].JList? ==>
              r == Failure(ClassCast)
    ensures "Echoes" in data && data["Echoes"].JList? ==>
              var items := data["Echoes"].items;
              && (r.Success? <==> forall k :: 0 <= k < |items| ==> IsNumber(items[k]))
              // length and order are preserved, doubles copied, integers widened
              && (r.Success? ==>
                    && |r.value| == |items|
                    && (forall k :: 0 <= k < |items| && items[k].JDouble? ==> r.value[k] == items[k].d)
                    && (forall k :: 0 <= k < |items| && items[k].JInteger? ==> r.value[k] == items[k].n as real))
              // on failure, the exception is the one of the first non-number entry
              && (r.Failure? ==>
                    exists k :: 0 <= k < |items| && !IsNumber(items[k])
                      && (forall j :: 0 <= j < k ==> IsNumber(items[j]))
                      && r.error == EntryError(items[k]))
  {
    if "Echoes" !in data || data["Echoes"].JNull? {
      return Failure(NullPointer);
    }
    if !data["Echoes"].JList? {
      return Failure(ClassCast);
    }
    var list := data["Echoes"].items;
    var result := new real[|list|];
    for i := 0 to result.Length
      invariant forall k :: 0 <= k < i ==> IsNumber(list[k])
      invariant forall k :: 0 <= k < i && list[k].JDouble? ==> result[k] == list[k].d
      invariant forall k :: 0 <= k < i && list[k].JInteger? ==> result[k] == list[k].n as real
    {
      match list[i]
      case JDouble(d) =>
        result[i] := d;
      case JInteger(n) =>
        result[i] := n as real;
      case _ =>
        return Failure(EntryError(list[i]));
    }
    return Success(result[..]);
  }
}
