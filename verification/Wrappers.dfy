/** A value that may be absent: Python's None, TypeScript's undefined, a missing attribute. */
module Wrappers {

  datatype Option<+T> = None | Some(value: T)
}
