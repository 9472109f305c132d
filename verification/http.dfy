/** The observable result of one request to the server. */
module Http {
  import opened Tokens

  const StatusBadRequest: int := 400
  const StatusUnauthorized: int := 401
  const StatusForbidden: int := 403

  datatype Response =
      /** `respondWithError`: a status code and a JSON `{"error": message}` body. */
    | Error(status: int, message: string)
      /** Both token cookies set and a JSON `{"message": message}` body (status 200). */
    | Issued(access: Token, refresh: Token, message: string)
      /** Whatever a protected or static handler wrote; its content is not modelled. */
    | Payload(body: string)
      /** The multiplexer's plain-text 404 for a path no route matches. */
    | NotFound
      /** The handler panicked: the server recovers, logs it and closes the connection without a response. */
    | Aborted
}
