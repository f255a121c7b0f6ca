/** The one small data type that every other module shares. */
module Wrappers {
  datatype Option<+T> = None | Some(value: T)
}
