/** The optional value used for a poll that may or may not find a key. */
module Wrappers {

  datatype Option<+T> = None | Some(value: T)
}
