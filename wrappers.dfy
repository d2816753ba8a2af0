/** Optional values, used where the source stores a possibly-NULL pointer or an absent attribute. */
module Wrappers {
  datatype Option<T> = None | Some(value: T)
}
