/** The optional value used wherever the source code returns `None`/`null` or reads a missing key. */
module Wrappers {

  datatype Option<+T> = None | Some(value: T)
}
