// Option and Result values used wherever the dashboard returns "nothing"
// (a JS null, a Go nil) or an error string instead of a value.
module Wrappers {

  datatype Option<T> = None | Some(value: T)

  datatype Result<T, E> = Success(value: T) | Failure(error: E)
}
