/** Option and result wrappers shared by the model: Ruby's nil becomes None,
    a raised exception becomes Err / Fail. */
module Wrappers {

  datatype Option<+T> = None | Some(value: T)

  datatype Result<+T, +E> = Ok(value: T) | Err(error: E)

  datatype Outcome<+E> = Pass | Fail(error: E)
}
