/** What is there, or is not */
module Wrappers {
  datatype Option<+T> = None | Some(value: T)
}
