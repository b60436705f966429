/** The optional value used for the C code's sentinel returns (a count of -1, a failed scan). */
module Wrappers {
  datatype Option<+T> = None | Some(value: T)
}
