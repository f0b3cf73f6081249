/** Optional values, used for Go's `error` results that are either nil or a value. */
module Wrappers {

  datatype Option<+T> = None | Some(value: T)

}
