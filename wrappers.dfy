/** Option and Result values for the calculator's nullable state and its thrown errors. */
module Wrappers {

  /** A value that may be absent, as a `string | null` state variable is. */
  datatype Option<+T> = None | Some(value: T)

  /** The outcome of a computation that either yields a value or throws an error. */
  datatype Result<+R, +E> = Success(value: R) | Failure(error: E)
}
