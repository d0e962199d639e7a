/** The optional value used for error samples that may be undefined. */
module Wrappers {
  /** `None` is the sampler's "no error available" answer (Python's `None`). */
  datatype Option<+T> = None | Some(value: T)
}
