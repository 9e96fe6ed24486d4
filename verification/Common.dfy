/** Result shapes shared by every module of the model. */
module Common {
  datatype Option<+T> = None | Some(value: T)

  /** The outcome of a Rust operation that may panic (index out of range, `unwrap` of
      `None`, `expect`): after a panic nothing is promised about the state. */
  datatype Outcome<+T> = Panic | Done(value: T)
}
