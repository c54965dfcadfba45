/** The optional value used for the en-passant target and for pin lookups. */
module Wrappers {

  datatype Option<+T> = None | Some(value: T)
}
