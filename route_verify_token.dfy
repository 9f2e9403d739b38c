/** The verify-token handler: a status code for a submitted token. */
module VerifyTokenRoute {
  import opened Auth

  const OK: nat := 200
  const UNAUTHORIZED: nat := 401
  const UNPROCESSABLE_ENTITY: nat := 422

  /**
   * `verify_token`: 422 for the empty token without validating it, then 200
   * or 401 as validation against the banned tokens succeeds or fails.
   */
  function VerifyToken(codec: Codec, banned: map<string, string>, token: string, now: int): (status: nat)
    ensures token == "" ==> status == UNPROCESSABLE_ENTITY
    ensures token != "" ==> (status == OK <==> ValidateToken(codec, banned, token, now).Ok?)
    ensures token != "" ==> (status == UNAUTHORIZED <==> ValidateToken(codec, banned, token, now).Err?)
  {
    if token == "" then UNPROCESSABLE_ENTITY
    else match ValidateToken(codec, banned, token, now)
      case Ok(_) => OK
      case Err(_) => UNAUTHORIZED
  }

  /** A banned token gets 401 whatever the codec would say about it. */
  lemma BannedTokenUnauthorized(codec: Codec, banned: map<string, string>, token: string, now: int)
    requires token != "" && token in banned
    ensures VerifyToken(codec, banned, token, now) == UNAUTHORIZED
  {
  }

  /** A freshly issued token that nobody has banned gets 200 until it expires. */
  lemma IssuedTokenAccepted(codec: Codec, banned: map<string, string>, email: DomainEmail.Email, issuedAt: int, now: int)
    requires Sound(codec)
    requires GenerateAuthToken(codec, email, issuedAt).Ok?
    requires GenerateAuthToken(codec, email, issuedAt).value !in banned
    requires now <= issuedAt + TOKEN_TTL_SECONDS + VALIDATION_LEEWAY
    ensures VerifyToken(codec, banned, GenerateAuthToken(codec, email, issuedAt).value, now) == OK
  {
    IssuedTokenValidates(codec, banned, email, issuedAt, now);
  }
}
