/** The optional value used for absent store entries and failed matches. */
module Wrappers {

  datatype Option<+T> = None | Some(value: T)
}
