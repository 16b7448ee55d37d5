/** Optional values and success-or-error values, used for parsers and for the
    errors the label command raises. */
module Outcomes {

  datatype Option<+T> = None | Some(value: T)

  datatype Result<+R, +E> = Success(value: R) | Failure(error: E)
}
