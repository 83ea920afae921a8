/**
 * Responses as the handlers of internal/http write them: a log of (status, JSON envelope) writes,
 * so a handler that writes twice shows both writes.
 */
module Http {
  import opened Wrappers
  import opened Jwt
  import opened Models

  /** The JSON envelopes the handlers write; `ErrorBody` is `{"error": message}`. */
  datatype Body =
    | ErrorBody(message: string)
    | TokensBody(accessToken: string, refreshToken: string)
    | ClaimsBody(claims: Claims)
    | UserBody(user: Option<Users>)
    | UserIdBody(userId: string)
    | StatusBody(status: string)

  datatype Write = Write(status: int, body: Body)

  /** `app.ErrorResponse(w, r, status, message)`. */
  function Error(status: int, message: string): seq<Write>
  {
    [Write(status, ErrorBody(message))]
  }
}
