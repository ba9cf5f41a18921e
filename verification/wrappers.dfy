/** An optional value, used where the relay either has an input or does not. */
module Wrappers {

  datatype Option<+T> = None | Some(value: T)
}
