/** The optional value used where the engine returns a null pointer or a failure flag. */
module Wrappers {

  datatype Option<+T> = None | Some(value: T)
}
