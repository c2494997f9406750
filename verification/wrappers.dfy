/** Optional values: the model's stand-in for `null`, `undefined` and Go's
    `(value, err)` pairs where only presence matters. */
module Wrappers {

  datatype Option<+T> = None | Some(value: T)
}
