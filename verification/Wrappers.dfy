/** The optional value that stands for the source's `undefined`. */
module Wrappers {
  datatype Option<+T> = None | Some(value: T)
  {
    /** The source's `x ?? fallback`. */
    function GetOr(fallback: T): T {
      if Some? then value else fallback
    }
  }

  datatype Result<+T, +E> = Ok(value: T) | Err(error: E)
}
