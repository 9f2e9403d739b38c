/**
 * Session tokens (`utils/auth.rs`): claims with the email as subject and an
 * expiry ten minutes ahead, the auth cookie that carries the token, and
 * validation that consults the banned-token store before decoding.
 *
 * The token is a JWT (RFC 7519) in JWS compact serialisation (section 7.1
 * of RFC 7515) signed with HMAC-SHA256.  Signing and signature checking
 * are the two operations of a `Codec` value; `Sound(codec)` is the one
 * property the model relies on: a signed token is non-empty and checks back
 * to exactly the claims it was signed from.
 */
module Auth {
  import opened Wrappers
  import opened DomainEmail
  import opened DomainDataStores
  import opened Cookies
  import BannedTokenStoreImpl

  const TOKEN_TTL_SECONDS: int := 600

  /** The name of the auth cookie. */
  const JWT_COOKIE_NAME: string := "jwt"

  /**
   * Latest whole second `chrono` represents, as a Unix timestamp:
   * 262142-12-31T23:59:59Z, the `NaiveDate::MAX` of the chrono 0.4.34 and
   * later releases.  Those are the releases that provide
   * `Duration::try_seconds`, which auth.rs calls.  Releases before 0.4.32
   * ended a year later, at 8_210_298_412_799.
   */
  const MAX_UTC_TIMESTAMP: int := 8_210_266_876_799

  /** Clock skew `jsonwebtoken`'s `Validation::default()` allows on `exp`, in seconds. */
  const VALIDATION_LEEWAY: int := 60

  /** `Claims { sub, exp }`; `exp` is a `usize`, hence non-negative. */
  datatype Claims = Claims(sub: string, exp: nat)

  /** Signing with the server key, and checking a signature and reading the claims back. */
  datatype Codec = Codec(sign: Claims -> Option<string>, verify: string -> Option<Claims>)

  /** Decode-after-encode: what `sign` issues is non-empty and `verify` returns its claims. */
  ghost predicate Sound(codec: Codec)
  {
    forall c: Claims :: codec.sign(c).Some? ==> codec.sign(c).value != "" && codec.verify(codec.sign(c).value) == Some(c)
  }

  /** The three ways `generate_auth_token` can fail. */
  datatype TokenGenError =
    | AddOverflow    // "Failed to add 10 minutes to current time"
    | NegativeExpiry // "failed to cast i64 into usize"
    | CreateFailed   // "Failed to create token"

  /**
   * The expiry timestamp: `now + TOKEN_TTL_SECONDS`, which must stay within
   * `chrono`'s range and must survive the conversion from `i64` to `usize`.
   */
  function Expiry(now: int): (r: Result<nat, TokenGenError>)
    ensures r.Ok? <==> 0 <= now + TOKEN_TTL_SECONDS <= MAX_UTC_TIMESTAMP
    ensures r.Ok? ==> r.value == now + TOKEN_TTL_SECONDS
    ensures now + TOKEN_TTL_SECONDS < 0 ==> r == Err(NegativeExpiry)
    ensures now + TOKEN_TTL_SECONDS > MAX_UTC_TIMESTAMP ==> r == Err(AddOverflow)
  {
    var exp := now + TOKEN_TTL_SECONDS;
    if exp > MAX_UTC_TIMESTAMP then Err(AddOverflow)
    else if exp < 0 then Err(NegativeExpiry)
    else Ok(exp)
  }

  /** `generate_auth_token`: sign `{sub: email, exp: now + 600}`; `now` is the clock's reading. */
  function GenerateAuthToken(codec: Codec, email: Email, now: int): (r: Result<string, TokenGenError>)
    ensures r.Ok? <==> Expiry(now).Ok? && codec.sign(Claims(email.AsRef(), now + TOKEN_TTL_SECONDS)).Some?
    ensures r.Ok? ==> codec.sign(Claims(email.AsRef(), now + TOKEN_TTL_SECONDS)) == Some(r.value)
    ensures Expiry(now).Err? ==> r == Err(Expiry(now).error)
    ensures Expiry(now).Ok? && codec.sign(Claims(email.AsRef(), now + TOKEN_TTL_SECONDS)).None? ==> r == Err(CreateFailed)
  {
    match Expiry(now)
    case Err(e) => Err(e)
    case Ok(exp) =>
      match codec.sign(Claims(email.AsRef(), exp))
      case None => Err(CreateFailed)
      case Some(token) => Ok(token)
  }

  /** An issued token is the signature of the email as subject and an expiry exactly 600 s ahead. */
  lemma IssuedClaims(codec: Codec, email: Email, now: int)
    requires GenerateAuthToken(codec, email, now).Ok?
    ensures 0 <= now + TOKEN_TTL_SECONDS
    ensures codec.sign(Claims(email.AsRef(), now + TOKEN_TTL_SECONDS)) == Some(GenerateAuthToken(codec, email, now).value)
  {
  }

  /** Token generation fails exactly when the expiry is out of range or signing fails. */
  lemma GenerateAuthTokenFails(codec: Codec, email: Email, now: int)
    ensures GenerateAuthToken(codec, email, now).Err? <==>
      now + TOKEN_TTL_SECONDS < 0 || now + TOKEN_TTL_SECONDS > MAX_UTC_TIMESTAMP ||
      codec.sign(Claims(email.AsRef(), now + TOKEN_TTL_SECONDS)).None?
  {
  }

  /** Why `jsonwebtoken::decode` refuses a token. */
  datatype DecodeError = InvalidSignature | ExpiredSignature

  /** `decode::<Claims>` with the default validation: a good signature and an `exp` no older than the leeway. */
  function Decode(codec: Codec, token: string, now: int): (r: Result<Claims, DecodeError>)
    ensures r.Ok? ==> codec.verify(token) == Some(r.value) && r.value.exp >= now - VALIDATION_LEEWAY
    ensures r == Err(InvalidSignature) <==> codec.verify(token).None?
    ensures r == Err(ExpiredSignature) <==> codec.verify(token).Some? && codec.verify(token).value.exp < now - VALIDATION_LEEWAY
  {
    match codec.verify(token)
    case None => Err(InvalidSignature)
    case Some(claims) => if claims.exp < now - VALIDATION_LEEWAY then Err(ExpiredSignature) else Ok(claims)
  }

  /** Why `validate_token` refuses a token. */
  datatype ValidateError = BannedLookupFailed(error: BannedTokenStoreError) | Banned | DecodeFailed(reason: DecodeError)

  /**
   * `validate_token`: look the token up among the banned ones first, and
   * decode it only when the lookup says it is not banned.
   */
  function ValidateToken(codec: Codec, banned: map<string, string>, token: string, now: int): (r: Result<Claims, ValidateError>)
    ensures token == "" ==> r == Err(BannedLookupFailed(TokenNotFound))
    ensures token != "" && token in banned ==> r == Err(Banned)
    ensures token != "" && token !in banned && Decode(codec, token, now).Ok? ==> r == Ok(Decode(codec, token, now).value)
    ensures token != "" && token !in banned && Decode(codec, token, now).Err? ==> r == Err(DecodeFailed(Decode(codec, token, now).error))
  {
    match BannedTokenStoreImpl.TokenExists(banned, token)
    case Err(e) => Err(BannedLookupFailed(e))
    case Ok(isBanned) =>
      if isBanned then Err(Banned)
      else match Decode(codec, token, now)
        case Ok(claims) => Ok(claims)
        case Err(e) => Err(DecodeFailed(e))
  }

  /** A banned token is refused whatever the codec and the clock say: it is never decoded. */
  lemma ValidateBannedWithoutDecoding(codec1: Codec, codec2: Codec, banned: map<string, string>, token: string, now1: int, now2: int)
    requires token != "" && token in banned
    ensures ValidateToken(codec1, banned, token, now1) == Err(Banned)
    ensures ValidateToken(codec1, banned, token, now1) == ValidateToken(codec2, banned, token, now2)
  {
  }

  /** The store's refusal of the empty token is passed on as a validation error. */
  lemma ValidateEmptyToken(codec: Codec, banned: map<string, string>, now: int)
    ensures ValidateToken(codec, banned, "", now) == Err(BannedLookupFailed(TokenNotFound))
  {
  }

  /** For a token that is not banned, validation is exactly decoding. */
  lemma ValidateUnbannedIsDecode(codec: Codec, banned: map<string, string>, token: string, now: int)
    requires token != "" && token !in banned
    ensures ValidateToken(codec, banned, token, now).Ok? <==> Decode(codec, token, now).Ok?
    ensures Decode(codec, token, now).Ok? ==> ValidateToken(codec, banned, token, now).value == Decode(codec, token, now).value
  {
  }

  /**
   * A token issued at `issuedAt`, not banned, and presented no later than
   * its expiry plus the leeway, validates to the claims it was issued with.
   */
  lemma IssuedTokenValidates(codec: Codec, banned: map<string, string>, email: Email, issuedAt: int, now: int)
    requires Sound(codec)
    requires GenerateAuthToken(codec, email, issuedAt).Ok?
    requires GenerateAuthToken(codec, email, issuedAt).value !in banned
    requires now <= issuedAt + TOKEN_TTL_SECONDS + VALIDATION_LEEWAY
    ensures ValidateToken(codec, banned, GenerateAuthToken(codec, email, issuedAt).value, now)
      == Ok(Claims(email.AsRef(), issuedAt + TOKEN_TTL_SECONDS))
  {
    var c := Claims(email.AsRef(), issuedAt + TOKEN_TTL_SECONDS);
    assert codec.sign(c).Some?;
  }

  /** The same token presented after expiry plus leeway is refused. */
  lemma IssuedTokenExpires(codec: Codec, banned: map<string, string>, email: Email, issuedAt: int, now: int)
    requires Sound(codec)
    requires GenerateAuthToken(codec, email, issuedAt).Ok?
    requires now > issuedAt + TOKEN_TTL_SECONDS + VALIDATION_LEEWAY
    ensures ValidateToken(codec, banned, GenerateAuthToken(codec, email, issuedAt).value, now).Err?
  {
    var c := Claims(email.AsRef(), issuedAt + TOKEN_TTL_SECONDS);
    assert codec.sign(c).Some?;
  }

  /** `create_auth_cookie`: named "jwt", holding the token, path "/", HTTP-only, SameSite Lax. */
  function CreateAuthCookie(token: string): (c: Cookie)
    ensures c.name == JWT_COOKIE_NAME && c.value == token
    ensures c.path == Some("/") && c.httpOnly == Some(true) && c.sameSite == Some(Lax)
  {
    Cookie(JWT_COOKIE_NAME, token, Some("/"), Some(true), Some(Lax))
  }

  /** `generate_auth_cookie`: fails exactly when token generation fails, otherwise wraps the token. */
  function GenerateAuthCookie(codec: Codec, email: Email, now: int): (r: Result<Cookie, TokenGenError>)
    ensures r.Err? <==> GenerateAuthToken(codec, email, now).Err?
    ensures r.Err? ==> r.error == GenerateAuthToken(codec, email, now).error
    ensures r.Ok? ==> r.value == CreateAuthCookie(GenerateAuthToken(codec, email, now).value)
  {
    match GenerateAuthToken(codec, email, now)
    case Err(e) => Err(e)
    case Ok(token) => Ok(CreateAuthCookie(token))
  }
}
