/** Option and Result types shared by the sensor and display models. */
module Wrappers {

  /** An optional value: a sensor read that may have failed. */
  datatype Option<+T> = None | Some(value: T)

  /** A value or the fault (a thrown exception in the source) that replaced it. */
  datatype Result<+R, +E> = Success(value: R) | Failure(error: E)
}
