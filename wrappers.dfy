/** Optional values: a lookup that may miss, a number that may fail to parse. */
module Wrappers {
  datatype Option<+T> = None | Some(value: T)
}
