/** The optional value the model uses wherever the program has a value that may be absent. */
module Wrappers {

  datatype Option<+T> = None | Some(value: T)
}
