/** Outcome types shared by the modules: an optional value, and the result of
    a call that either returns or raises a Python exception (kept as its text). */
module Results {

  datatype Option<T> = None | Some(value: T)

  datatype Result<T> = Ok(value: T) | Err(error: string)

  /** Python's truthiness test on an optional string argument. */
  predicate Truthy(s: Option<string>) {
    s.Some? && s.value != ""
  }
}
