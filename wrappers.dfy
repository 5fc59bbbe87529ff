/** Option, Result and Outcome: the model's stand-ins for null references and thrown exceptions. */
module Wrappers {

  /** `None` stands for a C# `null` result. */
  datatype Option<+T> = None | Some(value: T)

  /** An operation that either returns a value or fails with an error (the exceptions the source throws). */
  datatype Result<+T, +E> = Success(value: T) | Failure(error: E)

  /** An operation without a return value that either completes or fails. */
  datatype Outcome<+E> = Pass | Fail(error: E)
}
