/** Failure-carrying values shared by the assembler and the indicator engine.
    A Python exception that the model keeps is an `Err`, a returned value is `Ok`. */
module Wrappers {

  datatype Option<T> = None | Some(value: T)

  datatype Result<T, E> = Ok(value: T) | Err(error: E)
}
