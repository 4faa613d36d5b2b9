/** Option and Result: the absent value (`None` in Python) and the raised exception
    of the modelled code, made explicit as values. */
module Wrappers {

  datatype Option<+T> = None | Some(value: T)

  /** `Err` stands for an exception that the modelled function raises to its caller. */
  datatype Result<+T, +E> = Ok(value: T) | Err(error: E)
}
