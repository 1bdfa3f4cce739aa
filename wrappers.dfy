/** Optional values, used for the pointer fields of the Go structs that may be nil. */
module Wrappers {
  datatype Option<T> = None | Some(value: T)
}
