/** Option and Result: the success/failure shapes that stand in for Go's
    (value, error) pairs and for the optional command arguments. */
module Wrappers {

  datatype Option<+T> = None | Some(value: T)

  /** Success carries the value a Go function returns with a nil error;
      Failure carries the text of the non-nil error. */
  datatype Result<+R, +E> = Success(value: R) | Failure(error: E)
}
