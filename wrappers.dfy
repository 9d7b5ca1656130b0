/** Nullable values: Ruby's `nil` is `None`. */
module Wrappers {

  datatype Option<+T> = None | Some(value: T)
}
