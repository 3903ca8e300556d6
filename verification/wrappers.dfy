/** The failure-carrying wrappers the handler model returns: `Option` for the
    recognisers that answer "no match", `Result` for the content parser that
    raises on an unrecognised line. */
module Wrappers {

  datatype Option<+T> = None | Some(value: T)

  datatype Result<+R, +E> = Success(value: R) | Failure(error: E)
}
