/** The option type of the whole project: a pointer that may be null, a lookup that may fail. */
module Wrappers {

  datatype Option<+T> = None | Some(value: T)
}
