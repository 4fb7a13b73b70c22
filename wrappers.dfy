/** Option and Result values shared by every module of the model.
    Option stands for std::optional; Result for a call that either
    yields a value or throws. */
module Wrappers {

  datatype Option<+T> = None | Some(value: T)

  datatype Result<+T, +E> = Success(value: T) | Failure(error: E)
}
