/** The two small sum types the rest of the model shares. */
module Options {

  datatype Option<+T> = None | Some(value: T)

  /** A computation that may fail; the model never inspects the error text. */
  datatype Result<+T> = Ok(value: T) | Err
}
