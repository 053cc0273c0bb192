/** Optional values: JavaScript's `undefined`, a missing key, a failed parse. */
module Wrappers {
  datatype Option<+T> = None | Some(value: T)
}
