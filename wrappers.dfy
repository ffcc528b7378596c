/** The optional value used wherever the source reads a field that may be absent
    or a foreign call that may throw. */
module Wrappers {
  datatype Option<+T> = None | Some(value: T)
}
