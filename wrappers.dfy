/** Failure-carrying results shared by the model's modules: Python's raised
    exceptions become the Err side of a Result. */
module Wrappers {

  datatype Option<+T> = None | Some(value: T)

  datatype Result<+T, +E> = Ok(value: T) | Err(error: E)
}
