/** The optional value used wherever the system has "null or a value". */
module Wrappers {

  datatype Option<+T> = None | Some(value: T)
}
