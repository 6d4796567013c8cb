/** Failure-compatible result types shared by the chord engine. */
module Wrappers {

  /** An optional value; `None` also stands for numpy's NaN in chord slots. */
  datatype Option<+T> = None | Some(value: T)

  /** The outcome of an operation that may raise. */
  datatype Result<+R, +E> = Success(value: R) | Failure(error: E)
}
