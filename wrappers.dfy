/** An optional value, standing for an input that may fail to parse. */
module Wrappers {

  datatype Option<+T> = None | Some(value: T)
}
