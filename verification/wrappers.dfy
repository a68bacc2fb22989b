/** Failure-carrying wrappers shared by the model: an optional value (a
    missing field, an unset variable) and a value-or-error result (a Go
    `(value, error)` pair, or a call that terminates the program). */
module Wrappers {

  datatype Option<+T> = None | Some(value: T)

  datatype Result<+R, +E> = Success(value: R) | Failure(error: E)
}
