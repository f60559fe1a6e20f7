/** Optional values and operations that may fail. */
module Wrappers {

  datatype Option<+T> = None | Some(value: T) {
    /** The value, or a default when there is none. */
    function Or(default: T): T { if Some? then value else default }
  }

  datatype Result<+T, +E> = Ok(value: T) | Err(error: E)
}
