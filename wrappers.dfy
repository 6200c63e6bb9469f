/** Option and Result, the failure-carrying values used across the model. */
module Wrappers {

  /** `None` stands for a missing value; in the digitizer it is also how NaN is represented. */
  datatype Option<+T> = None | Some(value: T)

  /** `Failure` stands for a Python exception escaping an operation. */
  datatype Result<+R, +E> = Success(value: R) | Failure(error: E)
}
