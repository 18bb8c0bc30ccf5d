/** The Option type used wherever the source has a value that may be absent
    (a line that does not decode, a list-valued cell that is not a list). */
module Wrappers {
  datatype Option<+T> = None | Some(value: T)
}
