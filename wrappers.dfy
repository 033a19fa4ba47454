/** The conventional optional value, used for Go's `error` results and for
    parameters a request may omit. */
module Wrappers {
  datatype Option<+T> = None | Some(value: T)
}
