/** Optional values: the model's stand-in for JavaScript's `Infinity` and `NaN`. */
module Wrappers {

  datatype Option<+T> = None | Some(value: T)
}
