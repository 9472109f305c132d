/** Helper types shared by the model. */
module Wrappers {

  /** A value that may be absent: a missing cookie, a failed lookup, a rejected token. */
  datatype Option<+T> = None | Some(value: T)
}
