/** The two result shapes used throughout: a value that may be absent, and an operation that may refuse. */
module Outcomes {

  datatype Option<+T> = None | Some(value: T)

  datatype Result<+T, +R> = Ok(value: T) | Refused(reason: R)
}
