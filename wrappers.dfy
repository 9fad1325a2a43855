/** Option and Result values shared by the views: `null`-able refs and
    operations that either produce a value or fail with an error. */
module Wrappers {

  datatype Option<+T> = None | Some(value: T)

  datatype Result<+R, +E> = Success(value: R) | Failure(error: E)
}
