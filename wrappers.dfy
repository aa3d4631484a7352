/** Option and Result, for JavaScript's `undefined` and for thrown errors. */
module Wrappers {

  /** `None` stands for JavaScript's `undefined`. */
  datatype Option<+T> = None | Some(value: T)

  /** `Failure` stands for a thrown error and carries its message. */
  datatype Result<+R, +E> = Success(value: R) | Failure(error: E)
}
