/** The small Option wrapper used for JavaScript's `undefined` and for decoders that can fail. */
module Wrappers {
  datatype Option<+T> = None | Some(value: T)
}
