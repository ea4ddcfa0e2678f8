/** Option and Result, for values the source leaves `undefined`/`null` and for rejected inputs. */
module Wrappers {

  datatype Option<+T> = None | Some(value: T)

  datatype Result<+T, +E> = Ok(value: T) | Err(error: E)
}
