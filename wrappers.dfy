/** Option and Result, used for the configuration checks and for the
    verdict that only the window-completing run produces. */
module Wrappers {

  datatype Option<+T> = None | Some(value: T)

  datatype Result<+T, +E> = Ok(value: T) | Err(error: E)
}
