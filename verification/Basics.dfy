/** Value-or-nothing, shared by every component of the model. */
module Basics {
  datatype Option<+T> = None | Some(value: T)
}
