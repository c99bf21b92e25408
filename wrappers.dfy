/** Option and Result, the two wrappers the serializer protocol is phrased in. */
module Wrappers {

  /** An optional value: the protocol's length hint is an `Option<nat>`. */
  datatype Option<+T> = None | Some(value: T)

  /** The outcome of one serializer call: success, or the backend's opaque error. */
  datatype Result<+R, +E> = Ok(value: R) | Err(error: E)
}
