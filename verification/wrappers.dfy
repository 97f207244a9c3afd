/** Optional values, standing in for the `T | null` and `undefined` results of the screens. */
module Wrappers {

  datatype Option<+T> = None | Some(value: T)
}
