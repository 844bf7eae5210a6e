/** Option, Result and Outcome: the model's stand-ins for null references and thrown exceptions. */
module Wrappers {

  /** `None` plays the role of a null reference. */
  datatype Option<+T> = None | Some(value: T)

  /** A computation that either yields a value or raises an exception. */
  datatype Result<+R, +E> = Success(value: R) | Failure(error: E)

  /** A computation that either completes or raises an exception, with no value. */
  datatype Outcome<+E> = Pass | Fail(error: E)
}
