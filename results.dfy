/** Option and Result, the two wrappers the Rust signatures use
    (`Option<Credentials>`, `Result<T, String>`). */
module Results {

  datatype Option<+T> = None | Some(value: T)

  datatype Result<+T, +E> = Ok(value: T) | Err(error: E)
}
