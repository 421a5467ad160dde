/** Optional values, used for Go's nil error and for partial decoders. */
module Wrappers {
  datatype Option<+T> = None | Some(value: T)
}
