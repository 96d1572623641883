/** The optional value used by the table scans. */
module Wrappers {

  datatype Option<+T> = None | Some(value: T)
}
