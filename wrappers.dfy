/** Option and Result values used across the model. A thrown JavaScript
    `Error` is modelled as `Err(message)`: every caller in the source only
    looks at the error's message. */
module Wrappers {

  datatype Option<+T> = None | Some(value: T)

  datatype Result<+T> = Ok(value: T) | Err(error: string)
}
