/** Failure-compatible result types shared by every module of the model. */
module Wrappers {

  /** An optional value: Python's `None` or a present value. */
  datatype Option<+T> = None | Some(value: T)

  /** Either a computed value or the error the source raises instead. */
  datatype Result<+T, +E> = Success(value: T) | Failure(error: E)
}
