/** The optional value used wherever the source yields a value or `undefined`. */
module Wrappers {

  datatype Option<+T> = None | Some(value: T)
}
