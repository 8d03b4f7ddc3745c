/** The error type shared by the doorctrl HTTP stack (doorctrl/src/http/mod.rs). */
module Http {
  datatype HttpError =
    | Incomplete
    | Disconnected
    | ProtocolError(msg: string)
    | NetworkError(msg: string)
    | UnsupportedRequest(msg: string)
    | ExtraHeadersExceeded
    | WebsocketProtocolError
}
