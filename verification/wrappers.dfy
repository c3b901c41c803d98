/** Optional values, shared by every module that needs one. */
module Wrappers {
  datatype Option<T> = None | Some(value: T)
}
