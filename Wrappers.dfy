/** A value that may be absent: the model's stand-in for a .NET reference that may be null. */
module Wrappers {

  datatype Option<+T> = None | Some(value: T)

}
