/** Optional values and results, shared by the modules of the model. */
module Option {

  datatype Option<+T> = None | Some(value: T)

  datatype Result<+T, +E> = Ok(value: T) | Err(error: E)

  /** The nullish operator: the value, or the fallback when there is none. */
  function Or<T>(o: Option<T>, fallback: T): T {
    if o.Some? then o.value else fallback
  }
}
