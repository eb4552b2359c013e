/** Absent values and failed calls, in place of null `shared_ptr`s and thrown exceptions. */
module Results {

  /** A value that may be absent: a null `shared_ptr`, an expired `weak_ptr`, a null `Sprite*`. */
  datatype Option<+T> = None | Some(value: T)

  /** The outcome of a call that may throw. */
  datatype Result<+T, +E> = Ok(value: T) | Err(error: E)
}
