/** Option and Result values shared by the whole model, named after the Rust
    types the applet uses. */
module Common {

  /** Rust's `Option<T>`. */
  datatype Option<+T> = None | Some(value: T)

  /** Rust's `Result<T, glib::Error>`; the error is carried as its message. */
  datatype Result<+T> = Ok(value: T) | Err(error: string)
}
