/** The optional value used throughout the model for "no match" and
    "not given". */
module Wrappers {

  datatype Option<+T> = None | Some(value: T)
}
