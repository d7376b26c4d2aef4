/** The outcome of a pipeline step that can fail with a typed error. */
module Results {

  datatype Result<+T, +E> = Ok(value: T) | Err(error: E)
}
