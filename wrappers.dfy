/** Optional values: the model of a JavaScript variable that may hold `null`
    or a lookup that may come back `undefined`. */
module Wrappers {
  datatype Option<T> = None | Some(value: T)
}
