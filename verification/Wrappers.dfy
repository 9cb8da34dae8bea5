/** A value that may be absent: a NULL pointer, or no result. */
module Wrappers {
  datatype Option<T> = None | Some(value: T)
}
