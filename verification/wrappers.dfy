/** The optional value used for parse results and for a cursor's terminal error. */
module Wrappers {

  datatype Option<+T> = None | Some(value: T)
}
