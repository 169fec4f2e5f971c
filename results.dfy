/** Option and Result wrappers shared by the decoders; both are failure-compatible, so `:-` works on them. */
module Results {

  datatype Option<+T> = None | Some(value: T)

  /** Either a decoded value or the kind of error the decoder throws. */
  datatype Result<+T, +E> = Ok(value: T) | Err(error: E) {

    predicate IsFailure() {
      Err?
    }

    function PropagateFailure<U>(): Result<U, E>
      requires Err?
    {
      Err(error)
    }

    function Extract(): T
      requires Ok?
    {
      value
    }
  }
}
