/** Optional values, standing in for the C code's nullable pointers. */
module Wrappers {

  /** `None` plays the role of a NULL pointer, `Some(v)` of a valid one. */
  datatype Option<+T> = None | Some(value: T)
}
