/** The optional value used where the controller code uses a null reference. */
module Wrappers {

  datatype Option<+T> = None | Some(value: T)
}
