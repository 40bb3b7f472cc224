/** Option and Result, the absent value (Ruby's nil) and the raised error of the model. */
module Wrappers {

  /** `None` stands for Ruby's nil. */
  datatype Option<+T> = None | Some(value: T)

  /** `Failure` carries the exception Ruby would raise. */
  datatype Result<+R, +E> = Success(value: R) | Failure(error: E)
}
