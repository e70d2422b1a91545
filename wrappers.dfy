/** The optional-value and result datatypes shared by the model. */
module Wrappers {

  /** An optional value: a JavaScript `undefined`/`null`, a Python `None`. */
  datatype Option<T> = None | Some(value: T)

  /** The outcome of a request handler or a fallible step: a value or an error. */
  datatype Result<T, E> = Ok(value: T) | Err(error: E)
}
