/** Small datatypes shared by the model. */
module Wrappers {

  /** A value that may be absent: stands for a Go nil pointer or nil interface. */
  datatype Option<+T> = None | Some(value: T)

  /**
   * The outcome of running a loop of the Go program that is not guaranteed to end:
   * either it returns with a value, or it spins forever.
   */
  datatype Run<+T> = Returns(value: T) | Diverges
}
