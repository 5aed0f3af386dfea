/** The optional value the engine's lookups return. */
module Wrappers {
  datatype Option<+T> = None | Some(value: T)
}
