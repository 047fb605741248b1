/** Python exceptions as values: an operation that raises returns `Err`. */
module Results {

  /** A raised exception, by its class name and its message. */
  datatype Exception = Exception(kind: string, message: string)

  datatype Result<+T> = Ok(value: T) | Err(error: Exception)
}
