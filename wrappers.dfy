/** Optional values, used for the source's nullable fields and lookups that may miss. */
module Wrappers {
  datatype Option<+T> = None | Some(value: T)
}
