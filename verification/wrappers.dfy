/** The optional value used for attributes that the window sets only later. */
module Wrappers {

  datatype Option<+T> = None | Some(value: T)
}
