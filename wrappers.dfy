/** The optional value used where the program uses `None`. */
module Wrappers {

  datatype Option<+T> = None | Some(value: T)
}
