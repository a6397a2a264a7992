// Result and option types for the runtime's `(value, error)` returns and nil pointers.
module Wrappers {

  datatype Option<+T> = None | Some(value: T)

  datatype Result<+T, +E> = Success(value: T) | Failure(error: E)

}
