/** Failure-compatible wrappers: `Option` for JavaScript's null/undefined,
    `Result` for a call that either returns a value or throws an Error with a message. */
module Wrappers {

  datatype Option<+T> = None | Some(value: T)

  datatype Result<+T> = Ok(value: T) | Err(message: string)
}
