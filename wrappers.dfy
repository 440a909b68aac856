/** The optional value used for absent storage entries, failed parses and "no quote". */
module Wrappers {
  datatype Option<+T> = None | Some(value: T)
}
