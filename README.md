# auth-service, modelled in Dafny

This project models the core of the Rust `auth-service`: the service behind
signup, login with an optional second factor sent by email, verify-2fa,
logout and verify-token.

**Domain values.** The validated value types are `Email`, `Password`,
`LoginAttemptId` and `TwoFACode`. Each parse function returns a `Result`
exactly as the Rust `parse` does. Rust's `str::len` counts UTF-8 bytes, and so
does `Text.Utf8Length`. `u32::from_str` and `Uuid::parse_str` are written out
(`Text.ParseU32`, `Uuid.ParseStr`), so the accepted inputs are the crate's own
and not an approximation.

**Stores.** Every in-memory store is a `class` over a `map` field, with
`modifies` and `old(...)` contracts:
- the user store, both the `Email`-keyed revision and the older `String`-keyed one;
- the pending 2FA store, both the overwriting revision and the older one that rejects duplicates;
- the banned-token store.

**Session tokens.** `utils/auth.rs` is modelled over an abstract JWT `Codec`
(a `sign` and a `verify` function). The hypothesis `Auth.Sound` says that a
signed token is non-empty and decodes to the claims it was signed from. The
expiry check keeps `jsonwebtoken`'s default leeway of 60 seconds. Issuing
keeps `chrono`'s overflow check and the failing cast of a negative timestamp.

**Routes.** Each route is one atomic step over an `AppState`, which holds
the three stores, plus a `CookieJar` value. The clock (`now`), the random
draws (`attemptRandom`, `codeDraw`) and the notifier's outcome (`notifierOk`)
are parameters. `Scenarios` chains the handlers into the flows the service is
built for.

Readings chosen where the source mixes revisions:
- `Email::parse` takes the raw string, as every caller passes it, and the record is `User { email: Email, password: Password, requires_2fa }` (the older store keeps `user.rs`'s `String` fields).
- Any email parse failure in a route becomes `InvalidCredentials`.
- `validate_token` takes the banned tokens explicitly, and so does `verify_token`.
- Login's notifier is a parameter, because `AppState` has no `email_client` field.
- `UnexpectedError` carries no payload.

Behaviour of the code a reader might not expect:
- `TwoFACode::parse` checks only the byte length and `u32` parsing, so "000123" and "+12345" are accepted.
- The password bound counts bytes, not characters.
- The attempt-id comparison in verify-2fa is on canonical UUID strings, so uppercase, braced, simple and URN spellings of the stored id all match.
- The default code's range `100000..999999` excludes 999999.
- verify-2fa removes the pending pair before it generates the cookie, so a failure to generate the token still consumes the code.

## Model

| member | source | states |
|---|---|---|
| Text.Utf8Length | auth-service/src/domain/password.rs:14 | Rust's `len()`, the UTF-8 byte count; it is between the character count and four times it |
| Text.Utf8LengthBounds | auth-service/src/domain/password.rs:14 | the byte length `len()` lies between the character count and four times it, and equals the character count exactly for ASCII strings |
| Text.ParseU32 | auth-service/src/domain/data_stores.rs:78 | a value `u32::from_str` accepts never exceeds 2^32-1 |
| Text.ToDecimal | auth-service/src/domain/data_stores.rs:89 | `to_string` of a number yields a non-empty string of decimal digits |
| Text.ToDecimalCorrect | auth-service/src/domain/data_stores.rs:89 | `to_string` of a number is a non-empty digit string with that decimal value and no leading zero |
| Text.ToDecimalLength | auth-service/src/domain/data_stores.rs:88-89 | a number in [10^k, 10^(k+1)) renders with exactly k+1 digits |
| Text.ParseU32ToDecimal | auth-service/src/domain/data_stores.rs:78-79 | `u32` parsing of the rendering of any value up to 2^32-1 returns that value |
| Uuid.ParseStr | auth-service/src/domain/data_stores.rs:54 | `parse_str` accepts only inputs of 32, 36, 38 or 45 characters; a 38-character input must be braced and a 45-character one must start with "urn:uuid:", each around a hyphenated form that parses to the same UUID |
| Uuid.ToString | auth-service/src/domain/data_stores.rs:55 | `to_string` is the 36-character 8-4-4-4-12 form, with no upper-case hex digit, and it parses back to the UUID it renders |
| Uuid.ParseStrToString | auth-service/src/domain/data_stores.rs:54-55 | `parse_str` of a UUID's canonical `to_string` returns the same UUID |
| Uuid.ParseStrHyphenated | auth-service/src/domain/data_stores.rs:54 | the hyphenated form, upper or lower case, parses back to its UUID |
| Uuid.ParseStrSimple | auth-service/src/domain/data_stores.rs:54 | the 32-digit simple form parses back to its UUID |
| Uuid.ParseStrBraced | auth-service/src/domain/data_stores.rs:54 | the braced form parses back to its UUID |
| Uuid.ParseStrUrn | auth-service/src/domain/data_stores.rs:54 | the `urn:uuid:` form parses back to its UUID |
| Uuid.ParseStrAcceptsOnlyAscii | auth-service/src/domain/data_stores.rs:54 | every accepted input is ASCII, so its byte and character lengths agree |
| Uuid.NewV4 | auth-service/src/domain/data_stores.rs:66 | `new_v4` yields version 4 with the RFC 4122 variant and keeps every other random digit |
| DomainEmail.Email.Parse | auth-service/src/domain/email.rs:10-18 | the `&self` form: Ok with the wrapped string exactly when it contains '@', otherwise "failed" |
| DomainEmail.ParseEmail | auth-service/src/domain/email.rs:3-18 | accepted exactly when the input contains '@'; the value's `as_ref` is the input unchanged; the error is "failed" |
| DomainEmail.ParseEmailRoundTrip | auth-service/src/domain/email.rs:3-6 | an `Email` holding '@' re-parses from its `as_ref` to itself |
| DomainPassword.ParsePassword | auth-service/src/domain/password.rs:12-19 | accepted exactly when the byte length is at least 8; `as_ref` of the result is the input; rejection is `InvalidCredentials` |
| DomainPassword.AsciiPasswordBoundary | auth-service/src/domain/password.rs:14 | for ASCII input, 7 characters are rejected and 8 accepted |
| DomainPassword.PasswordCountsBytes | auth-service/src/domain/password.rs:14 | four two-byte characters (8 bytes) are accepted although they are 4 characters |
| DomainPassword.ParsePasswordExamples | auth-service/src/domain/password.rs:26-38 | "long-enough" is accepted with its text kept, "bad" is rejected with `InvalidCredentials` |
| DomainPassword.PasswordEquality | auth-service/src/domain/password.rs:3 | two passwords are equal exactly when their strings are |
| DomainError.IntoResponse | auth-service/src/domain/error.rs:23-40 | the total mapping to 409/400/401/500/400/401 with each variant's message in the `error` field; 500 exactly for `UnexpectedError` |
| DomainError.CredentialErrorsShareMessage | auth-service/src/domain/error.rs:27-28 | `InvalidCredentials` and `IncorrectCredentials` carry the same message but statuses 400 and 401 |
| DomainError.ResponsesDistinguishErrors | auth-service/src/domain/error.rs:25-35 | different variants give different (status, message) pairs |
| DomainDataStores.ParseLoginAttemptId | auth-service/src/domain/data_stores.rs:53-58 | accepted exactly when `parse_str` accepts; the stored string is the canonical rendering; the error is "Failed to parse uuid" |
| DomainDataStores.ParseLoginAttemptIdIdempotent | auth-service/src/domain/data_stores.rs:54-55 | re-parsing a stored id yields the same id |
| DomainDataStores.ParseLoginAttemptIdCanonical | auth-service/src/domain/data_stores.rs:54-55 | hyphenated, simple, braced and URN spellings, in either case, all yield the same stored id |
| DomainDataStores.DefaultLoginAttemptId | auth-service/src/domain/data_stores.rs:64-67 | the default id is accepted by `parse` and parses to itself |
| DomainDataStores.ParseTwoFACode | auth-service/src/domain/data_stores.rs:74-82 | "Code too short!" exactly when the byte length is not 6; otherwise accepted exactly when `u32` parsing succeeds, storing the input unchanged, else "Failed to parse code" |
| DomainDataStores.ParseTwoFACodeAccepts | auth-service/src/domain/data_stores.rs:75-81 | a 6-byte string is accepted exactly when it is six digits or '+' followed by five digits |
| DomainDataStores.ParseTwoFACodeNoRangeCheck | auth-service/src/domain/data_stores.rs:78-79 | "000123" and "+12345" are accepted: no range check on the value |
| DomainDataStores.DefaultTwoFACode | auth-service/src/domain/data_stores.rs:85-90 | a draw from [100000, 999999) renders as six digits of that value, and the result parses to itself |
| UserStoreImpl.HashmapUserStore.AddUser | auth-service/src/services/data_stores/hashmap_user_store.rs:12-20 | a fresh email is inserted under its own key and nothing else changes; an existing one gives `UserAlreadyExists` with the map unchanged; keys always equal their users' emails |
| UserStoreImpl.HashmapUserStore.GetUser | auth-service/src/services/data_stores/hashmap_user_store.rs:22-27 | the stored user, whose email is the key, or `UserNotFound` exactly when absent; read-only |
| UserStoreImpl.HashmapUserStore.VerifyUser | auth-service/src/services/data_stores/hashmap_user_store.rs:29-40 | Ok exactly when the user exists with an equal password; `UserNotFound` exactly when absent; `InvalidCredentials` exactly on a mismatch |
| UserStoreImpl.AddGetVerify | auth-service/src/services/data_stores/hashmap_user_store.rs:100-134 | on a fresh store, add then get then verify succeed and get returns the added user |
| LegacyUserStoreImpl.HashmapUserStore.AddUser | auth-service/src/services/hashmap_user_store.rs:19-27 | insert under the string key when absent, otherwise `UserAlreadyExists` with the map unchanged |
| LegacyUserStoreImpl.HashmapUserStore.GetUser | auth-service/src/services/hashmap_user_store.rs:29-35 | the stored record or `UserNotFound`; read-only |
| LegacyUserStoreImpl.HashmapUserStore.VerifyUser | auth-service/src/services/hashmap_user_store.rs:37-48 | Ok on an exact password match, `InvalidCredentials` on a mismatch, `UserNotFound` on an absent key; read-only |
| LegacyUserStoreImpl.AddGetVerify | auth-service/src/services/hashmap_user_store.rs:94-122 | on a fresh store, add then get then verify succeed |
| TwoFACodeStoreImpl.HashmapTwoFACodeStore.AddCode | auth-service/src/services/data_stores/hashmap_two_fa_code_store.rs:15-23 | always Ok; the pair for the email is overwritten and no other entry changes |
| TwoFACodeStoreImpl.HashmapTwoFACodeStore.RemoveCode | auth-service/src/services/data_stores/hashmap_two_fa_code_store.rs:24-29 | Ok when present, `LoginAttemptIdNotFound` when absent; the entry is gone afterwards either way |
| TwoFACodeStoreImpl.HashmapTwoFACodeStore.GetCode | auth-service/src/services/data_stores/hashmap_two_fa_code_store.rs:30-38 | the stored pair, or `LoginAttemptIdNotFound` exactly when absent; read-only |
| TwoFACodeStoreImpl.AddGetRemove | auth-service/src/services/data_stores/hashmap_two_fa_code_store.rs:66-129 | add then get returns the pair; remove succeeds; then get and a second remove both fail with `LoginAttemptIdNotFound` |
| TwoFACodeStoreImpl.AddTwice | auth-service/src/services/data_stores/hashmap_two_fa_code_store.rs:21 | a second add for the same email wins |
| LegacyTwoFACodeStoreImpl.HashmapTwoFACodeStore.AddCode | auth-service/src/services/hashmap_two_fa_code_store.rs:15-25 | a pending email gives `CodeAlreadyExists` with the map unchanged; a fresh one is inserted with Ok, and the post-insert `UnexpectedError` never occurs |
| LegacyTwoFACodeStoreImpl.HashmapTwoFACodeStore.RemoveCode | auth-service/src/services/hashmap_two_fa_code_store.rs:26-31 | Ok and deleted when present, `LoginAttemptIdNotFound` when absent |
| LegacyTwoFACodeStoreImpl.HashmapTwoFACodeStore.GetCode | auth-service/src/services/hashmap_two_fa_code_store.rs:32-37 | the stored pair or `LoginAttemptIdNotFound`; read-only |
| LegacyTwoFACodeStoreImpl.AddGetAddAgain | auth-service/src/services/hashmap_two_fa_code_store.rs:46-64 | add then get returns the same pair, and adding again for that email is refused |
| BannedTokenStoreImpl.TokenExists | auth-service/src/services/hashmap_banned_token_store.rs:24-33 | `TokenNotFound` exactly for the empty token; otherwise true exactly when the token is banned |
| BannedTokenStoreImpl.HashmapBannedTokenStore.AddToken | auth-service/src/services/hashmap_banned_token_store.rs:12-22 | `TokenNotFound` for "", `TokenAlreadyExists` for a banned token (both leave the set unchanged), otherwise inserted as key and value; the set only grows |
| BannedTokenStoreImpl.HashmapBannedTokenStore.VerifyTokenExists | auth-service/src/services/hashmap_banned_token_store.rs:24-33 | the lookup agrees with `TokenExists` on the current set |
| BannedTokenStoreImpl.AddEmptyThenTwice | auth-service/src/services/hashmap_banned_token_store.rs:43-90 | adding "" fails with `TokenNotFound`, a first add succeeds, a second add fails with `TokenAlreadyExists`, and the token is then reported banned |
| Cookies.CookieJar.Add | auth-service/src/routes/login.rs:127 | the jar then holds the cookie under its name, other names unchanged |
| Cookies.CookieJar.Remove | auth-service/src/routes/logout.rs:28 | the jar then holds no cookie of that name, other names unchanged |
| Auth.Expiry | auth-service/src/utils/auth.rs:40-52 | `now + 600` when a valid non-negative timestamp; `AddOverflow` past chrono's maximum; `NegativeExpiry` below zero |
| Auth.GenerateAuthToken | auth-service/src/utils/auth.rs:39-59 | succeeds exactly when the expiry `now + 600` is in range and signing `{sub: email, exp: now + 600}` succeeds, and the token is that signature; expiry errors are passed on, and a signing failure is `CreateFailed` |
| Auth.IssuedClaims | auth-service/src/utils/auth.rs:54-58 | a successfully issued token is the signature of `Claims { sub: email, exp: now + 600 }` |
| Auth.GenerateAuthTokenFails | auth-service/src/utils/auth.rs:44-52 | issuing fails exactly when the expiry is negative or past chrono's range, or signing fails |
| Auth.Decode | auth-service/src/utils/auth.rs:71-77 | `InvalidSignature` when the codec rejects the token; `ExpiredSignature` when `exp` is more than 60 s in the past; otherwise the decoded claims |
| Auth.ValidateToken | auth-service/src/utils/auth.rs:62-78 | the empty token gives the store's `TokenNotFound`; a banned token gives `Banned`; any other token gives exactly the decode result, claims or decode error |
| Auth.ValidateBannedWithoutDecoding | auth-service/src/utils/auth.rs:63-69 | a banned token is refused as `Banned` regardless of codec and clock |
| Auth.ValidateEmptyToken | auth-service/src/utils/auth.rs:64 | the empty token gives the store's lookup error `TokenNotFound`, propagated |
| Auth.ValidateUnbannedIsDecode | auth-service/src/utils/auth.rs:71-77 | for a non-empty token that is not banned, validation is exactly the decode result |
| Auth.IssuedTokenValidates | auth-service/src/utils/auth.rs:54-77 | under `Sound`, an issued, unbanned token presented within expiry plus leeway validates to its issued claims |
| Auth.IssuedTokenExpires | auth-service/src/utils/auth.rs:71-77 | under `Sound`, the same token presented after expiry plus leeway is refused |
| Auth.CreateAuthCookie | auth-service/src/utils/auth.rs:81-89 | name "jwt", the token as value, path "/", HTTP-only, SameSite Lax |
| Auth.GenerateAuthCookie | auth-service/src/utils/auth.rs:92-95 | fails exactly when issuing fails, with the same error; otherwise the auth cookie of the issued token |
| SignupRoute.Signup | auth-service/src/routes/signup.rs:11-50 | a bad email or password gives `InvalidCredentials`, an existing email gives `UserAlreadyExists`, both leaving the store unchanged; otherwise 201 "User Created Successfully!" and the user is stored with the given `requires_2fa` |
| LoginRoute.HandleNo2FA | auth-service/src/routes/login.rs:115-133 | 200 with the jar gaining the auth cookie for the email, or the jar unchanged with `UnexpectedError` when issuing fails |
| LoginRoute.Handle2FA | auth-service/src/routes/login.rs:72-113 | the fresh (id, code) is stored for the email; the notifier gets exactly that code; 206 "2FA required" with that id, or `UnexpectedError` with the pair kept when the notifier fails; the jar is untouched |
| LoginRoute.Login | auth-service/src/routes/login.rs:36-70 | a parse failure gives `InvalidCredentials`; an unknown user or wrong password gives the single `IncorrectCredentials`; neither touches the stores; otherwise the 2FA or the direct branch according to the stored flag |
| Verify2FARoute.Verify2FA | auth-service/src/routes/verify_2fa.rs:26-71 | a parse failure gives `InvalidCredentials`; a missing or differing pair gives `IncorrectCredentials` with the pair left in place; a match removes the pair and answers 200 with the auth cookie, or `UnexpectedError` when issuing fails |
| LogoutRoute.Logout | auth-service/src/routes/logout.rs:10-32 | no "jwt" cookie gives `MissingToken`; a token that does not validate gives `InvalidToken`, both with nothing changed; otherwise the token is banned, the cookie removed and 200 returned |
| LogoutRoute.LoggedOutTokenRejected | auth-service/src/routes/logout.rs:25 | once banned by logout, the token is refused as `Banned` at any later time |
| VerifyTokenRoute.VerifyToken | auth-service/src/routes/verify_token.rs:17-30 | 422 for the empty token; otherwise 200 exactly when validation succeeds and 401 exactly when it fails |
| VerifyTokenRoute.BannedTokenUnauthorized | auth-service/src/routes/verify_token.rs:26 | a banned token gets 401 |
| VerifyTokenRoute.IssuedTokenAccepted | auth-service/src/routes/verify_token.rs:25 | an issued, unbanned, unexpired token gets 200 |
| Scenarios.SessionWithout2FA | auth-service/tests/api/logout.rs:73-126 | combines the double-logout test with the verify-token steps of auth-service/tests/api/verify_token.rs: signup, login, verify-token 200, logout 200, verify-token 401, a second logout `MissingToken` |
| Scenarios.Verify2FAReplay | auth-service/tests/api/verify_2fa.rs:190-253 | a matching verify-2fa succeeds, and replaying it gives `IncorrectCredentials` |
| Scenarios.SecondLoginSupersedesFirst | auth-service/tests/api/verify_2fa.rs:57-130 | after a second 2FA login, the first attempt id is refused and the second one accepted |
| Scenarios.SignupTwoUsers | auth-service/tests/api/signup.rs:32-56 | two distinct fresh emails both sign up, and the first one again is refused |

## Left out

- The Postgres user store, with Argon2id hashing on a blocking thread pool, and the Redis 2FA and banned-token stores with their server-side TTLs are not part of this model: they are database and network I/O. Their only business rule, that the Postgres `verify_user` collapses every failure to `InvalidCredentials`, is not modelled.
- JWT internals are abstract: the `jsonwebtoken` header, HMAC-SHA256 (section 3.2 of RFC 7518), the three dot-separated segments of JWS compact serialisation (section 7.1 of RFC 7515) and the secret. `Auth.Sound` is a hypothesis that lemmas take, not a property proved of a real signer.
- `Auth.Decode`: of `Validation::default` only the expiry check with its 60-second leeway is modelled; algorithm checks and the required-claims check are inside the abstract `verify`.
- The `UserStore`, `BannedTokenStore` and `TwoFACodeStore` traits and their `dyn` objects are not modelled: `AppState` holds the concrete in-memory stores.
- `Arc<RwLock<...>>` sharing and async locking are not modelled; each handler is one atomic step. In particular the gap between `validate_token` and `add_token` in logout, where another request could ban the same token first, is not modelled (in the model `add_token` after a successful validation cannot fail).
- Randomness (`thread_rng`, `Uuid::new_v4`), the clock (`Utc::now`) and the email client are parameters, not modelled sources.
- HTTP/axum plumbing is not modelled: JSON extraction and its 422 rejections for malformed bodies, the router, serialisation of responses, and the attributes of the removal cookie that `jar.remove` sends.
- Configuration and environment loading, tracing setup, the mock email client and process startup are not modelled; they do no business logic.
- `GenerateTokenError` is never constructed by the source and is not modelled; token-issuing failures are `Auth.TokenGenError`.
- Auth.MAX_UTC_TIMESTAMP assumes a chrono 0.4.34 or later release, in which the last representable date is 262142-12-31; the source ships no lock file that fixes the release.
- Auth.Expiry: chrono's lower timestamp bound is not modelled, because an expiry below zero already fails at the cast to `usize`.
- Text.ParseU32: models the digit-and-sign rules of `u32::from_str`, not the error kinds it reports, because the source discards them.
- A TTL on banned tokens or pending 2FA codes is not modelled: the in-memory stores have none.
