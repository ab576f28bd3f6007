/** A value that may be absent: `null`/`undefined` in the source. */
module Wrappers {
  datatype Option<T> = None | Some(value: T)
}
