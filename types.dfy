/** The crate's error type, `GError` in src/types.rs, as the call sites use it. */
module Types {
  import Json

  /** A transport failure of hyper (connection, TLS, reading the body). */
  datatype HttpError = HttpError(description: string)

  /** A failure of the websocket library (tungstenite). */
  datatype WsError = WsError(description: string)

  /** The error variants the call sites construct. The declaration in
      src/types.rs names one `Serde { error, data }`; the clients build
      `SerdeDe { error, data }` and `SerdeSer(error)`, which are modelled here. */
  datatype GError =
    | Http(http: HttpError)
    | Gemini(message: string)
    | SerdeDe(error: Json.DeError, data: string)
    | SerdeSer(serError: Json.SerError)
    | Websocket(ws: WsError)
}
