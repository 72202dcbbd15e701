/** Option and Result, the shapes JavaScript expresses with `null`/`undefined`
    and with a thrown error. */
module Wrappers {

  datatype Option<+T> = None | Some(value: T)

  datatype Result<+T, +E> = Ok(value: T) | Err(error: E)
}
