/** The optional value used wherever the C code may hold a null pointer
    (the argv sentinel, an unset HOME, a missing file name). */
module Wrappers {

  datatype Option<+T> = None | Some(value: T)
}
