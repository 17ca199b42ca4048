/** Outcomes of operations that can raise in the original program. */
module Results {

  datatype Option<T> = None | Some(value: T)

  /** The Python exceptions the modelled code can raise. */
  datatype Exception =
    | KeyError
    | ValueError
    | TypeError
    | ZeroDivisionError
    | AttributeError
    | UnboundLocalError
    | IndexError

  /** A value, or the exception that was raised instead of producing it. */
  datatype Result<T> = Ok(value: T) | Err(error: Exception)
}
