/** The usual Some/None datatype, for values the scripts may lack (Python's None). */
module Wrappers {
  datatype Option<+T> = None | Some(value: T)
}
