/** Go-style return values: an optional value, an error that may be nil,
    a value-or-error, and a call that either returns or panics at run time. */
module Wrappers {

  datatype Option<T> = None | Some(value: T)

  /** A Go `error`: `Nil` or an error carrying the text `err.Error()` returns. */
  datatype Error = Nil | Err(msg: string)

  /** A Go `(T, error)` pair where the error decides whether the value is meaningful. */
  datatype Result<T> = Ok(value: T) | Failure(msg: string)

  /** The outcome of Go code that may index out of range: it returns, or it panics. */
  datatype Run<T> = Returns(value: T) | Panics
}
