/** Optional values: JavaScript's `undefined` (an unset environment variable, a falsy fallback). */
module Wrappers {
  datatype Option<+T> = None | Some(value: T)
}
