/** Outcomes of reading: what a caller sees, and what the specification functions compute. */
module Results {
  datatype Option<+T> = None | Some(value: T)

  datatype Error = Eof | Format | TrailingBytes

  datatype Result<+T> = Ok(value: T) | Err(error: Error)

  /** A value read from the front of some input together with how many bytes it took. */
  datatype Parsed<+T> = Done(value: T, used: nat) | Fail(error: Error)
}
