/** A value that may be absent: a missing request field, a nullable column, an unset lookup. */
module Wrappers {

  datatype Option<+T> = None | Some(value: T)
}
