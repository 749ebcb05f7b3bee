/** The Option type used wherever the converter's Python code returns None or a match object. */
module Wrappers {
  datatype Option<+T> = None | Some(value: T)
}
