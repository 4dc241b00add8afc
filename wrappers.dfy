/** Optional values, standing in for Python's `None` and C#'s `null` results. */
module Wrappers {
  datatype Option<+T> = None | Some(value: T)
}
