/** Optional values: JavaScript's `undefined` / `null` results and fields. */
module Wrappers {

  datatype Option<+T> = None | Some(value: T)
}
