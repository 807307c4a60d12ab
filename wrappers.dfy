/** Optional values: JavaScript's `undefined` for a missing key or a missing entry. */
module Wrappers {

  datatype Option<+T> = None | Some(value: T)
}
