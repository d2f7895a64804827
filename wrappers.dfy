/** Small value wrappers shared by the modules of this model. */
module Wrappers {

  /** A value that may be absent; stands for a nullable pointer of the source. */
  datatype Option<+T> = None | Some(value: T)
}
