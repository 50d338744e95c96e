/** The Option datatype used for every Python value that may be `None`
    and for every computation that may raise. */
module Wrappers {

  datatype Option<+T> = None | Some(value: T)
}
