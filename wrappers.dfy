/** Optional values, used for every "value or error" return of the Go source. */
module Wrappers {

  datatype Option<+T> = None | Some(value: T)
}
