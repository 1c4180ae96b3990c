/** The "found / not found" result of a lookup; the source returns `undefined` for not found. */
module Wrappers {

  datatype Option<+T> = None | Some(value: T)
}
