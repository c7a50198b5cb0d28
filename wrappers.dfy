/** Option: the value-or-nothing results of the provider gateway, the offer search and the token fetch. */
module Wrappers {
  datatype Option<+T> = None | Some(value: T)
}
