/** Optional values (a JavaScript `null` or `undefined`) and the outcome of a
    call that can be rejected. */
module Wrappers {

  datatype Option<+T> = None | Some(value: T)

  datatype Result<+T, +E> = Success(value: T) | Failure(error: E)
}
