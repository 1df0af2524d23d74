/** Optional values: the `null` / `undefined` of the program. */
module Wrappers {

  datatype Option<+T> = None | Some(value: T)
}
