/** The optional value used for pandas' missing-value marker (NaN). */
module Wrappers {

  datatype Option<+T> = None | Some(value: T)
}
