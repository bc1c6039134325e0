/** The optional value used where the program's operation can come back empty-handed. */
module Wrappers {
  datatype Option<+T> = None | Some(value: T)
}
