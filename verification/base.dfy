/** Shared vocabulary: Go's fixed-width integers, time values, and error results. */
module Base {

  const MinInt64: int := -0x8000_0000_0000_0000
  const MaxInt64: int := 0x7FFF_FFFF_FFFF_FFFF

  /** Go's `int` on a 64-bit platform. */
  type Int64 = x: int | MinInt64 <= x <= MaxInt64

  /** Go's `time.Duration`: a signed 64-bit count of nanoseconds. */
  type Duration = Int64

  /** A `time.Time` reading, abstracted to an integer; 0 stands for the zero Time. */
  type Instant = int

  datatype Option<+T> = None | Some(value: T)

  /** The errors the core can report. `DatabaseNotFound` is `ErrDatabaseNotFound`;
      every other error (validators, duration parser, a failing backend) is opaque. */
  datatype Error = DatabaseNotFound | Failure(message: string)

  datatype Result<+T> = Ok(value: T) | Err(error: Error)

  /** Go's `x++` on a signed 64-bit integer: wraps from the largest to the smallest value. */
  function Increment(x: Int64): (r: Int64)
    ensures x < MaxInt64 ==> r == x + 1
    ensures x == MaxInt64 ==> r == MinInt64
  {
    if x == MaxInt64 then MinInt64 else x + 1
  }
}
