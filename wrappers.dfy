/** Small value types shared by the two pipeline scripts. */
module Wrappers {

  /** Python's `None` or a present value. */
  datatype Option<+T> = None | Some(value: T)

  /**
   * What an HTTP call gives back: a response with its status code and its
   * (already decoded) body, or a transport failure that makes `requests`
   * raise an exception instead of returning.
   */
  datatype Reply<+B> = Response(status: int, body: B) | TransportError
}
