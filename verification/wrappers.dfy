/** Failure-compatible wrappers shared by every module: an optional value
    (JavaScript's `null`/`undefined` or a missing field) and a result that is
    either a value or an error message (a thrown `Error`). */
module Wrappers {

  datatype Option<+T> = None | Some(value: T)

  datatype Result<+R> = Ok(value: R) | Err(message: string)
}
