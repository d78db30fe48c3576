/** Small shared datatypes: optional values and results of operations that can raise. */
module Prelude {

  datatype Option<+T> = None | Some(value: T)

  /** A Python call that either returns or raises with a message. */
  datatype Result<+T> = Ok(value: T) | Err(error: string)
}
