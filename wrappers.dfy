/** The optional value used wherever Ruby allows nil. */
module Wrappers {

  datatype Option<+T> = None | Some(value: T)
}
