/** Option and Result, the two wrappers the rest of the model returns. */
module Wrappers {

  /** A value that may be absent; in the JavaScript reading of a document, None is `undefined`. */
  datatype Option<+T> = None | Some(value: T)

  /** The outcome of a step that either yields a value or stops with an error. */
  datatype Result<+T, +E> = Ok(value: T) | Err(error: E)
}
