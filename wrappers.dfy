/** Optional values and results with an error, used for the notifier's
    fallible steps (rule-URL lookup, construction, dispatch). */
module Wrappers {

  datatype Option<+T> = None | Some(value: T)

  datatype Result<+T, +E> = Success(value: T) | Failure(error: E)
}
