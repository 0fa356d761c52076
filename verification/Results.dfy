/** Success or failure of an operation whose Python original raises an exception. */
module Results {

  datatype Result<+T, +E> = Ok(value: T) | Err(error: E)

}
