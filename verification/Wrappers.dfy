// Results, optional values and the router's error kinds.
module Wrappers {
  datatype Option<+T> = None | Some(value: T)

  datatype Result<+T, +E> = Ok(value: T) | Err(error: E)
  {
    function ToOption(): Option<T> {
      match this
      case Ok(v) => Some(v)
      case Err(_) => None
    }
  }

  /** The router's errors; the human-readable text of a protocol error is dropped. */
  datatype ProxyError =
    | Io
    | AuthFailed
    | BandwidthExceeded
    | Protocol
    | Timeout
    | UnsupportedProtocol
    | NoMatchingUpstream

  type U16 = n: int | 0 <= n < 0x1_0000
}
