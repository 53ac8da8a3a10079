/** The conventional Some/None datatype, used where a value may be missing. */
module Wrappers {

  datatype Option<+T> = None | Some(value: T)
}
