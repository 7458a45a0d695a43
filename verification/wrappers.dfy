/** The optional value used wherever a column or a lookup may give SQL NULL / Python None. */
module Wrappers {
  datatype Option<+T> = None | Some(value: T)
}
