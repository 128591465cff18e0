/** Optional values, used for every outcome that either yields a value or fails. */
module Wrappers {
  datatype Option<+T> = None | Some(value: T)
}
