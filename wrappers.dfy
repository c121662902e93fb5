/** The optional value used for shots that may or may not be fired in a tick. */
module Wrappers {
  datatype Option<+T> = None | Some(value: T)
}
