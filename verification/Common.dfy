/** Failure-carrying datatypes shared by every module. */
module Common {

  datatype Option<+T> = None | Some(value: T)

  datatype Result<+T, +E> = Success(value: T) | Failure(error: E)

  /** Points in time and durations, in milliseconds. */
  type Time = int
}
