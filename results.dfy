/** Option and Result, the two failure-carrying shapes the model needs:
    a lookup that may find nothing and an operation that may raise. */
module Results {

  datatype Option<+T> = None | Some(value: T)

  /** A Python call that either returns a value or raises with a message. */
  datatype Result<+T> = Ok(value: T) | Err(message: string)
}
