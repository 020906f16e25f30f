/** Option and Result, the two failure-carrying shapes every other module uses
    for Python's None / JavaScript's null and for raised exceptions. */
module Wrappers {

  datatype Option<+T> = None | Some(value: T)

  datatype Result<+R, +E> = Success(value: R) | Failure(error: E)
}
