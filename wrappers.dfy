/** The optional value used for results that may be absent (a failed decode, a path that cannot be un-suffixed). */
module Wrappers {
  datatype Option<+T> = None | Some(value: T)
}
