/** Option, used for values JavaScript may leave undefined or NaN. */
module Wrappers {

  datatype Option<+T> = None | Some(value: T)
}
