/** The optional value used for the delta slots and for a missing key. */
module Wrappers {

  datatype Option<+T> = None | Some(value: T)
}
