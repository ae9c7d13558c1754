/** Optional values, used for the wheel timer and for parsers. */
module Wrappers {
  datatype Option<+T> = None | Some(value: T)
}
