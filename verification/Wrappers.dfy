/** Optional values: SQL NULL, a missing row, a failed call. */
module Wrappers {
  datatype Option<+T> = None | Some(value: T)
}
