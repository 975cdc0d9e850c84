// The parts of the Java runtime the robot code leans on: the exceptions it can
// raise, 32-bit int bounds, and the narrowing cast from double to int.
module JavaRuntime {

  /** The exceptions the modelled Java code can throw. */
  datatype JavaError =
    | NullPointer                 // NullPointerException
    | ClassCast                   // ClassCastException
    | IndexOutOfBounds(index: int) // List.get / array access past the end
    | NegativeArraySize(size: int) // new double[n] with n < 0

  /** A computation that either yields a value or throws. */
  datatype Result<T> = Success(value: T) | Failure(error: JavaError)

  /** A Java reference that may be null. */
  datatype Option<T> = None | Some(value: T)

  const INT_MIN: int := -0x8000_0000
  const INT_MAX: int := 0x7fff_ffff

  type Int32 = n: int | INT_MIN <= n <= INT_MAX

  /** Java's narrowing conversion `(int) x` of a finite double: truncation
      toward zero, saturating at the ends of the int range. */
  function DoubleToInt(x: real): (r: Int32)
    ensures 0.0 <= x <= INT_MAX as real ==> r as real <= x < r as real + 1.0
    ensures INT_MIN as real <= x < 0.0 ==> r as real - 1.0 < x <= r as real
    ensures x > INT_MAX as real ==> r == INT_MAX
    ensures x < INT_MIN as real ==> r == INT_MIN
  {
    if x >= 0.0 then
      (if x >= INT_MAX as real then INT_MAX else x.Floor)
    else
      (if x <= INT_MIN as real then INT_MIN else -((-x).Floor))
  }
}
