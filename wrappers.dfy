/** Failure-compatible value types used across the model: an optional value
    (JavaScript's null/undefined/NaN), a value-or-error result, and a
    pass-or-error outcome standing for a promise that resolves or rejects. */
module Wrappers {

  datatype Option<+T> = None | Some(value: T)

  datatype Result<+T, +E> = Success(value: T) | Failure(error: E)

  datatype Outcome<+E> = Pass | Fail(error: E)
}
