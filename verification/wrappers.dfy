/** Optional values and setter outcomes, shared by the vehicle model. */
module Wrappers {

  /** A value that may be absent; Python's `None` is `None` here. */
  datatype Option<+T> = None | Some(value: T)

  /** The outcome of a setter that may raise instead of storing. */
  datatype Result<+R, +E> = Success(value: R) | Failure(error: E)
}
