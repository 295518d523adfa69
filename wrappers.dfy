/** The optional value used for the nullable sample pointer of a voice. */
module Wrappers {

  datatype Option<+T> = None | Some(value: T)
}
