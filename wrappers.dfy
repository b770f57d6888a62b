/** Optional values: JavaScript's `undefined`/`null` where the source has them. */
module Wrappers {
  datatype Option<+T> = None | Some(value: T)
}
