/** Optional values: a JavaScript `undefined` field, a callback that was not called. */
module Wrappers {

  datatype Option<+T> = None | Some(value: T)
}
