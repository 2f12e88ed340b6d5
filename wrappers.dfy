/** Small failure-carrying datatypes shared by the other modules. */
module Wrappers {
  datatype Option<+T> = None | Some(value: T)

  /** The outcome of a Python call that may also raise: a value, a plain
      failure return, or an exception that propagates to the caller. */
  datatype Attempt<+T> = Done(result: T) | Failed | Raised
}
