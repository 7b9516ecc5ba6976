/** Small failure-carrying datatypes shared by the whole model. */
module Wrappers {

  /** A value that may be absent: TypeScript's optional property or `null`. */
  datatype Option<+T> = None | Some(value: T)

  /** The outcome of a step that either yields a value or fails with an error. */
  datatype Result<+R, +E> = Success(value: R) | Failure(error: E)
}
