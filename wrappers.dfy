// Optional values, used for the result of a substring search.
module Wrappers {

  datatype Option<+T> = None | Some(value: T)
}
