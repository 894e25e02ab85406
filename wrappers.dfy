/** Optional values: an absent (or falsy) request field, an unset record field. */
module Wrappers {
  datatype Option<+T> = None | Some(value: T)
}
