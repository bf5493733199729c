/** Optional values: a DOM lookup that may return null, an attribute that may be absent. */
module Wrappers {
  datatype Option<+T> = None | Some(value: T)
}
