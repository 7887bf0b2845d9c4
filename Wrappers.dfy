/** The optional value used for a key of `context.user_data` that may be
    absent. */
module Wrappers {
  datatype Option<+T> = None | Some(value: T)
}
