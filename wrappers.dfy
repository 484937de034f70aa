/** Optional values: stands for JavaScript's `undefined` (and `null`) next to a present value. */
module Wrappers {
  datatype Option<+T> = None | Some(value: T)
}
