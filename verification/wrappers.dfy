/** Failure-compatible result types used by the model of the fetch and the pipeline. */
module Wrappers {

  /** A value that may be absent. */
  datatype Option<+T> = None | Some(value: T)

  /** Either a value or an error; usable with `:-`, so that an error propagates the way an
      uncaught exception leaves the enclosing function. */
  datatype Result<+T, +E> = Success(value: T) | Failure(error: E) {

    predicate IsFailure() {
      Failure?
    }

    function PropagateFailure<U>(): Result<U, E>
      requires Failure?
    {
      Failure(error)
    }

    function Extract(): T
      requires Success?
    {
      value
    }
  }
}

/** The integer type of the program: Kotlin's `Int`, a signed 32-bit integer. */
module Kotlin {

  newtype int32 = x: int | -0x8000_0000 <= x < 0x8000_0000

  /** One fetched time series: the `value` of every point, in response order. */
  type Series = seq<int32>
}
