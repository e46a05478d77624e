/** Optional values: Go's nil-able `any` and pointer fields. */
module Wrappers {

  datatype Option<+T> = None | Some(value: T)

}
