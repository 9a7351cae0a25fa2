/** The optional value used for Go's (value, error) pairs and for "no halt yet". */
module Wrappers {

  datatype Option<+T> = None | Some(value: T)
}
