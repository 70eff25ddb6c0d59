/** The optional value used wherever the server reads a field that may be absent (None in the source). */
module Wrappers {

  datatype Option<+T> = None | Some(value: T)
}
