/** The optional value used wherever the program has "a match or nothing". */
module Wrappers {

  datatype Option<+T> = None | Some(value: T)
}
