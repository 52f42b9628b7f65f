/** Optional values: a file that may be absent, a command that was not run. */
module Wrappers {
  datatype Option<T> = None | Some(value: T)
}
