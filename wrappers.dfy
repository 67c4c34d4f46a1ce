/** Optional values: a missing attribute, an absent reply field, no match. */
module Wrappers {
  datatype Option<T> = None | Some(value: T)
}
