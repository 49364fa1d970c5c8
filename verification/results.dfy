/** The error channel shared by the layer helpers: a computed value or the
    error the helper raises instead. */
module Results {

  datatype Result<+T, +E> = Ok(value: T) | Err(error: E)
}
