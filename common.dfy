/** Value types shared by every module of the model. */
module Common {

  /** Rust's `Option<T>`. */
  datatype Option<T> = None | Some(value: T)

  /** `Option::unwrap_or`. */
  function UnwrapOr<T>(o: Option<T>, fallback: T): T
  {
    if o.Some? then o.value else fallback
  }

  /**
   * The outcome of a Rust computation that may panic: `Abort` stands for a
   * failed `expect`, an out-of-range slice or `unimplemented!()`, and carries
   * the panic message.
   */
  datatype Result<T> = Ok(value: T) | Abort(reason: string)

  /** The completion of a Rust method that returns `()` but may panic. */
  datatype Outcome = Done | Panic(reason: string)
}
