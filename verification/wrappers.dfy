/** An optional value, shared by the other modules. */
module Wrappers {

  /** A value that may be absent, as a `re.search` match or a `dict.get` lookup may be. */
  datatype Option<+T> = None | Some(value: T)
}
