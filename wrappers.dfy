/** The optional value shared by the modules of this model. */
module Wrappers {

  /** A value that may be absent: a file that could not be opened, a token strtok did not find. */
  datatype Option<+T> = None | Some(value: T)
}
