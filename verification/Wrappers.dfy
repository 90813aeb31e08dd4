// A value that may be absent: a NULL handle, or a computation that does not end.
module Wrappers {

  datatype Option<+T> = None | Some(value: T)
}
