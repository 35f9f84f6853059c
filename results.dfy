/** Option and Result values used for parse failures and error returns. */
module Results {

  datatype Option<+T> = None | Some(value: T)

  /** `Err` stands for an exception that the scoring code lets escape to its caller. */
  datatype Result<+T, +E> = Ok(value: T) | Err(error: E)
}
