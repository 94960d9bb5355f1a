/** The usual Some/None datatype, used for optional regex groups and lookups. */
module Wrappers {

  datatype Option<+T> = None | Some(value: T)
}
