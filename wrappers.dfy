/** Optional values, used for configuration lookups and for a file that may be missing. */
module Wrappers {

  datatype Option<+T> = None | Some(value: T)
}
