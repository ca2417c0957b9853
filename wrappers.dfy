/** Option and Result values shared by the store and the form models. */
module Wrappers {

  /** A value that may be absent (`undefined`/`null` in the TypeScript source). */
  datatype Option<+T> = None | Some(value: T)

  /** The outcome of a procedure: its value, or the error it is rejected with. */
  datatype Result<+T, +E> = Success(value: T) | Failure(error: E)
}
