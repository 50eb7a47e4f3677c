/** Option and Result values, used for TypeScript's `undefined` and for
    exceptions that a call lets propagate to its caller. */
module Wrappers {

  datatype Option<+T> = None | Some(value: T)

  /** `Failure(e)` stands for a call that throws `e`. */
  datatype Result<+T, +E> = Success(value: T) | Failure(error: E)
}
