/** The optional value used throughout the model: a Python `None` or a present value. */
module Wrappers {

  datatype Option<+T> = None | Some(value: T)
}
