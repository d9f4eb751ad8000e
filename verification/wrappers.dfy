/** The optional value used where the application works with `null`. */
module Wrappers {
  datatype Option<+T> = None | Some(value: T)
}
