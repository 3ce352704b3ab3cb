/** The Option type used for Go's nil pointers, nil errors and failed lookups. */
module Wrappers {

  datatype Option<+T> = None | Some(value: T)
}
