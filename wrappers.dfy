/** Optional values: a missing memory status or a null operation handle. */
module Wrappers {
  datatype Option<+T> = None | Some(value: T)
}
