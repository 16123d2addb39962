/** Option, used for Go's nil-able results and for "zero value" sentinels. */
module Wrappers {

  datatype Option<+T> = None | Some(value: T)
}
