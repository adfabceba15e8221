/** The optional value shared by both programs: a pointer that may be NULL,
    a character read that may find no input. */
module Wrappers {
  datatype Option<+T> = None | Some(value: T)
}
