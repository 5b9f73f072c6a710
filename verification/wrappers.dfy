/** The optional value used for "no configuration" and for unfilled slots. */
module Wrappers {

  datatype Option<+T> = None | Some(value: T)
}
