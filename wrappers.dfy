/** The usual optional-value datatype, used for decisions that may fail. */
module Wrappers {

  datatype Option<+T> = None | Some(value: T)
}
