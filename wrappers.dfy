/** Optional values, used for results the operating system may or may not deliver. */
module Wrappers {
  datatype Option<+T> = None | Some(value: T)
}
