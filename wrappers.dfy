/** A value that may be absent: `null` fields of the source and non-finite results. */
module Wrappers {
  datatype Option<T> = None | Some(value: T)
}
