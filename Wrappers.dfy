/** Optional values, standing for JavaScript's `null` / a missing value. */
module Wrappers {
  datatype Option<+T> = None | Some(value: T)
}
