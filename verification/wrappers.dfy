/** The optional value used for absent attributes and failed searches. */
module Wrappers {

  datatype Option<+T> = None | Some(value: T)
}
