/** The conventional option type, for `undefined`, `null` and refused calls. */
module Wrappers {
  datatype Option<+T> = None | Some(value: T)
}
