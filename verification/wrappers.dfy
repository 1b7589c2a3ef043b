/** The optional value used where the services read a field that may be absent. */
module Wrappers {
  datatype Option<+T> = None | Some(value: T)
}
