/** Optional values and error-or-value results used throughout the model.
    `None` stands for Python's `None` (or `-1` from `str.find`); `Err` carries
    the message of an exception the source catches and reports. */
module Wrappers {

  datatype Option<+T> = None | Some(value: T)

  datatype Result<+T, +E> = Ok(value: T) | Err(error: E)
}
