/** The optional value returned by lookups that may miss (`Option<T>` in the source). */
module Wrappers {

  datatype Option<+T> = None | Some(value: T)
}
