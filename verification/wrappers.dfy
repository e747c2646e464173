/** Failure-carrying results. A Go `panic(...)` or a returned `error` becomes `Err`
    holding the message text the source uses. */
module Wrappers {

  datatype Option<+T> = None | Some(value: T)

  datatype Result<+T> = Ok(value: T) | Err(msg: string)
}
