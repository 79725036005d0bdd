/** The optional value used for the client's not-yet-opened socket and for
    looking a wire string up in the command vocabulary. */
module Wrappers {
  datatype Option<+T> = None | Some(value: T)
}
