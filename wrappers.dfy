/** The optional value used wherever the page works with `T | null` or `T | undefined`. */
module Wrappers {

  datatype Option<+T> = None | Some(value: T)
}
