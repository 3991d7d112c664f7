/** The Python exceptions that escape the decode-health pipeline, and a
    result type that carries either a value or the exception raised. */
module Errors {

  /** `IndexError` from `seq[0]` on an empty list, `KeyError` from a dict
      lookup of a missing key, `ValueError` from `min`/`max` of an empty
      list. */
  datatype PyError = IndexError | KeyError | ValueError

  datatype Result<+T> = Ok(value: T) | Err(error: PyError)

  datatype Option<+T> = None | Some(value: T)
}
