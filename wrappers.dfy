/** A value that may be absent: the model of C#'s `double?` and of a null reference. */
module Wrappers {

  datatype Option<+T> = None | Some(value: T)
}
