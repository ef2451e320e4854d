/** The optional-value type shared by the other modules: a parsed URL that may
    be missing, a row that may not exist. */
module Wrappers {

  datatype Option<+T> = None | Some(value: T)
}
