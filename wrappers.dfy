/** Optional values: a parsed number that may be NaN, a touch global that may be null. */
module Wrappers {
  datatype Option<+T> = None | Some(value: T)
}
