/** Failure-carrying datatypes shared by the model. */
module Wrappers {

  datatype Option<+T> = None | Some(value: T)

  /** The Python exceptions that the modelled code can raise on its own. */
  datatype Exception =
    | IndexError      // a list index out of range (`xs[i]` with `i >= len(xs)`)
    | AssertionError  // a failed `assert` statement
    | ValueError      // a builtin given an unusable argument (`argmax` of an empty list)

  /** Either the value a Python call returns or the exception it raises. */
  datatype Result<+T> = Ok(value: T) | Err(error: Exception)
}
