/** Option and Result, the two failure-carrying datatypes the model uses in
    place of Go's nil values and run-time panics. */
module Wrappers {

  /** An optional value: `None` stands for Go's nil / absent. */
  datatype Option<+T> = None | Some(value: T)

  /** Either a value or the error that stopped its computation. */
  datatype Result<+R, +E> = Success(value: R) | Failure(error: E)
}
