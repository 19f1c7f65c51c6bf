/** Optional values and results with an error text, used for the fields a
    message may omit and for the ring-holder oracle's resolve/reject outcome. */
module Wrappers {

  datatype Option<+T> = None | Some(value: T)

  datatype Result<+T> = Ok(value: T) | Err(error: string)
}
