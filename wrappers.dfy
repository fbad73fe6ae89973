/** The optional-value datatype shared by the quiz model. */
module Wrappers {

  datatype Option<+T> = None | Some(value: T)
}
