/** The optional value used for absent JSON members and for "not found" results. */
module Wrappers {

  datatype Option<+T> = None | Some(value: T)
}
