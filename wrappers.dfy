/** Optional values, for Python arguments that may be `None`. */
module Wrappers {

  datatype Option<T> = None | Some(value: T)
}
