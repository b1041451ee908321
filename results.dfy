/** Option and Result values standing for the source's `null` returns and thrown errors. */
module Results {

  datatype Option<+T> = None | Some(value: T)

  /** `Err` carries what a TypeScript function would have thrown. */
  datatype Result<+T, +E> = Ok(value: T) | Err(error: E)
}
