/** Optional values and results with an error, used wherever the library
    hands back a null pointer or an empty description instead of a value. */
module Outcomes {

  /** A value that may be absent; `None` stands for a C++ `nullptr`. */
  datatype Option<+T> = None | Some(value: T)

  /** A value or the reason there is none. */
  datatype Result<+T, +E> = Ok(value: T) | Err(error: E)
}
