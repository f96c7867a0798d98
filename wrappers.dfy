/** Rust's `Option` and `Result`, and the `Poll` of an asynchronous computation. */
module Wrappers {

  datatype Option<+T> = None | Some(value: T)

  datatype Result<+T, +E> = Ok(value: T) | Err(error: E)

  /** `core::task::Poll`: a future is either still pending or ready with its output. */
  datatype Poll<+T> = Pending | Ready(value: T)
}
