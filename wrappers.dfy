/** Optional values, used for dictionary lookups and optional JSON keys. */
module Wrappers {
  datatype Option<+T> = None | Some(value: T)
}
