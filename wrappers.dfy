/** Option and Result, used for the values JavaScript leaves `undefined` and for
    the exceptions the import paths throw. */
module Wrappers {

  datatype Option<+T> = None | Some(value: T)

  datatype Result<+T, +E> = Success(value: T) | Failure(error: E)
}
