/** Failure-compatible wrappers used by every stage of the pipeline. */
module Wrappers {

  /** `None` plays the part of JavaScript's `null` ("no error"). */
  datatype Option<+T> = None | Some(value: T)

  /** The outcome of a stage that may throw: `Err` carries the kind of the exception. */
  datatype Result<+T, +E> = Ok(value: T) | Err(error: E)
}
