/** Option and Result, the two failure-carrying datatypes the model uses in place of
    Java's null returns and IOExceptions. */
module Wrappers {

  datatype Option<+T> = None | Some(value: T)

  datatype Result<+R, +E> = Success(value: R) | Failure(error: E)
}
