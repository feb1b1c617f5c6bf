/** Optional values, used for the result of a shared-font request. */
module Wrappers {
  datatype Option<+T> = None | Some(value: T)
}
