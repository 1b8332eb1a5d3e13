/** Optional values: JavaScript's `null` / `NaN` stand-ins used by the model. */
module Wrappers {

  datatype Option<+T> = None | Some(value: T)
}
