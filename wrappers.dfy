/** `None`-or-value and return-or-raise wrappers. */
module Wrappers {

  /** Python's `None` or a present value. */
  datatype Option<+T> = None | Some(value: T)

  /** A call that either returns a value or raises an exception carrying a message. */
  datatype Result<+T, +E> = Success(value: T) | Failure(error: E)
}
