/** A missing value and a failing computation, as values. */
module Outcomes {

  /** `None` stands for JavaScript's `NaN` where a number was expected. */
  datatype Option<+T> = None | Some(value: T)

  /** A result, or the message the user is shown instead. */
  datatype Result<+T, +E> = Success(value: T) | Failure(error: E)
}
