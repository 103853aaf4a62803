/** Small value wrappers shared by all modules of the model. */
module Wrappers {

  /** A value that may be absent (a null pointer in the modelled code). */
  datatype Option<+T> = None | Some(value: T)
}
