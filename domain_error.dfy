/** `AuthAPIError` and the HTTP response each variant is turned into. */
module DomainError {

  datatype AuthAPIError =
    | UserAlreadyExists
    | InvalidCredentials
    | IncorrectCredentials
    | UnexpectedError
    | MissingToken
    | InvalidToken

  const BAD_REQUEST: nat := 400
  const UNAUTHORIZED: nat := 401
  const CONFLICT: nat := 409
  const INTERNAL_SERVER_ERROR: nat := 500

  /** The JSON body `{"error": ...}`. */
  datatype ErrorResponse = ErrorResponse(error: string)

  datatype Response = Response(status: nat, body: ErrorResponse)

  /** `IntoResponse for AuthAPIError`: a status and the message put in the body's `error` field. */
  function IntoResponse(e: AuthAPIError): (r: Response)
    ensures 400 <= r.status < 600
    ensures r.status == INTERNAL_SERVER_ERROR <==> e == UnexpectedError
  {
    var (status, message) := match e
      case UserAlreadyExists => (CONFLICT, "User already exists")
      case InvalidCredentials => (BAD_REQUEST, "Invalid credentials")
      case IncorrectCredentials => (UNAUTHORIZED, "Invalid credentials")
      case UnexpectedError => (INTERNAL_SERVER_ERROR, "An unexpected error occurred")
      case MissingToken => (BAD_REQUEST, "Missing Token")
      case InvalidToken => (UNAUTHORIZED, "Invalid Request");
    Response(status, ErrorResponse(message))
  }

  /** Malformed and wrong credentials carry the same message and differ only in the status. */
  lemma CredentialErrorsShareMessage()
    ensures IntoResponse(InvalidCredentials).body == IntoResponse(IncorrectCredentials).body
    ensures IntoResponse(InvalidCredentials).status == BAD_REQUEST
    ensures IntoResponse(IncorrectCredentials).status == UNAUTHORIZED
  {
  }

  /** No two variants produce the same response, so a client can tell every error apart. */
  lemma ResponsesDistinguishErrors(a: AuthAPIError, b: AuthAPIError)
    ensures IntoResponse(a) == IntoResponse(b) ==> a == b
  {
  }
}
