/** Failure-carrying results for the operations that throw or trap in `StORM.swift`. */
module Wrappers {

  datatype Option<+T> = None | Some(value: T)

  /** A value, or the error that stopped the computation. */
  datatype Result<+T, +E> = Ok(value: T) | Err(error: E)

  /** Success without a value (a Swift `throws` function returning Void), or the thrown error. */
  datatype Outcome<+E> = Pass | Fail(error: E)
}
