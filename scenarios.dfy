/**
 * Client-side sequences of handler calls over one `AppState`: the flows the
 * service is built for, stated as postconditions over the handlers' contracts.
 */
module Scenarios {
  import opened Wrappers
  import opened DomainEmail
  import opened DomainPassword
  import opened DomainUser
  import opened DomainError
  import DomainDataStores
  import Uuid
  import opened Cookies
  import opened Auth
  import opened Store
  import UserStoreImpl
  import SignupRoute
  import LoginRoute
  import Verify2FARoute
  import LogoutRoute
  import VerifyTokenRoute

  /**
   * Without 2FA: sign up, log in, the cookie's token verifies, logout bans it,
   * the token no longer verifies, and a second logout finds no cookie.
   */
  method SessionWithout2FA(state: AppState, jar: CookieJar, email: string, password: string, codec: Codec, now: int,
                           attemptRandom: Uuid.Uuid, codeDraw: nat)
    returns (signedUp: Result<SignupRoute.SignupResponse, AuthAPIError>,
             loggedIn: Result<LoginRoute.LoginReply, AuthAPIError>,
             statusBefore: nat, loggedOut: Result<nat, AuthAPIError>, statusAfter: nat,
             loggedOutAgain: Result<nat, AuthAPIError>)
    requires state.Valid()
    requires ParseEmail(email).Ok? && ParsePassword(password).Ok?
    requires Email(email) !in state.userStore.users
    requires DomainDataStores.CODE_LOW <= codeDraw < DomainDataStores.CODE_HIGH
    requires Sound(codec)
    requires GenerateAuthToken(codec, Email(email), now).Ok?
    requires GenerateAuthToken(codec, Email(email), now).value !in state.bannedTokensStore.tokens
    modifies state.userStore, state.twoFACodeStore, state.bannedTokensStore
    ensures signedUp == Ok(SignupRoute.SignupResponse(SignupRoute.CREATED, "User Created Successfully!"))
    ensures loggedIn == Ok(LoginRoute.LoginReply(LoginRoute.OK, LoginRoute.RegularAuth))
    ensures statusBefore == VerifyTokenRoute.OK
    ensures loggedOut == Ok(LogoutRoute.OK)
    ensures statusAfter == VerifyTokenRoute.UNAUTHORIZED
    ensures loggedOutAgain == Err(MissingToken)
  {
    signedUp := SignupRoute.Signup(state, email, password, false);
    var jar1, sent;
    jar1, loggedIn, sent := LoginRoute.Login(state, jar, email, password, codec, now, attemptRandom, codeDraw, true);
    var token := GenerateAuthToken(codec, Email(email), now).value;
    assert jar1.Get(JWT_COOKIE_NAME) == Some(CreateAuthCookie(token));
    VerifyTokenRoute.IssuedTokenAccepted(codec, state.bannedTokensStore.tokens, Email(email), now, now);
    statusBefore := VerifyTokenRoute.VerifyToken(codec, state.bannedTokensStore.tokens, token, now);
    IssuedTokenValidates(codec, state.bannedTokensStore.tokens, Email(email), now, now);
    var jar2;
    jar2, loggedOut := LogoutRoute.Logout(state, jar1, codec, now);
    statusAfter := VerifyTokenRoute.VerifyToken(codec, state.bannedTokensStore.tokens, token, now);
    var jar3;
    jar3, loggedOutAgain := LogoutRoute.Logout(state, jar2, codec, now);
  }

  /**
   * A matching verify-2fa call consumes the pair, so replaying the same
   * attempt id and code is refused.
   */
  method Verify2FAReplay(state: AppState, jar: CookieJar, email: string, loginAttemptId: string, twoFACode: string,
                         codec: Codec, now: int)
    returns (first: Result<nat, AuthAPIError>, second: Result<nat, AuthAPIError>)
    requires Verify2FARoute.InputsParse(email, loginAttemptId, twoFACode)
    requires Verify2FARoute.PairMatches(state.twoFACodeStore.codes, email, loginAttemptId, twoFACode)
    requires GenerateAuthToken(codec, Email(email), now).Ok?
    modifies state.twoFACodeStore
    ensures first == Ok(Verify2FARoute.OK)
    ensures second == Err(AuthAPIError.IncorrectCredentials)
    ensures Email(email) !in state.twoFACodeStore.codes
  {
    var jar1, jar2;
    jar1, first := Verify2FARoute.Verify2FA(state, jar, email, loginAttemptId, twoFACode, codec, now);
    jar2, second := Verify2FARoute.Verify2FA(state, jar1, email, loginAttemptId, twoFACode, codec, now);
  }

  /**
   * With 2FA: a second login for the same user overwrites the pending pair,
   * so the first attempt id is refused and the second one is accepted.
   */
  method SecondLoginSupersedesFirst(state: AppState, jar: CookieJar, email: string, password: string, codec: Codec, now: int,
                                    random1: Uuid.Uuid, draw1: nat, random2: Uuid.Uuid, draw2: nat)
    returns (stale: Result<nat, AuthAPIError>, current: Result<nat, AuthAPIError>)
    requires state.Valid()
    requires ParseEmail(email).Ok? && ParsePassword(password).Ok?
    requires UserStoreImpl.CredentialsMatch(state.userStore.users, Email(email), Password(password))
    requires state.userStore.users[Email(email)].requires2fa
    requires DomainDataStores.CODE_LOW <= draw1 < DomainDataStores.CODE_HIGH
    requires DomainDataStores.CODE_LOW <= draw2 < DomainDataStores.CODE_HIGH
    requires DomainDataStores.DefaultLoginAttemptId(random1) != DomainDataStores.DefaultLoginAttemptId(random2)
    requires GenerateAuthToken(codec, Email(email), now).Ok?
    modifies state.twoFACodeStore
    ensures stale == Err(AuthAPIError.IncorrectCredentials)
    ensures current == Ok(Verify2FARoute.OK)
  {
    var jar1, r1, sent1 := LoginRoute.Login(state, jar, email, password, codec, now, random1, draw1, true);
    var jar2, r2, sent2 := LoginRoute.Login(state, jar1, email, password, codec, now, random2, draw2, true);
    var id1 := DomainDataStores.DefaultLoginAttemptId(random1);
    var id2 := DomainDataStores.DefaultLoginAttemptId(random2);
    var code1 := DomainDataStores.DefaultTwoFACode(draw1);
    var code2 := DomainDataStores.DefaultTwoFACode(draw2);
    assert DomainDataStores.ParseTwoFACode(code1.AsRef()) == Ok(code1);
    assert DomainDataStores.ParseTwoFACode(code2.AsRef()) == Ok(code2);
    var jar3;
    jar3, stale := Verify2FARoute.Verify2FA(state, jar2, email, id1.AsRef(), code1.AsRef(), codec, now);
    var jar4;
    jar4, current := Verify2FARoute.Verify2FA(state, jar3, email, id2.AsRef(), code2.AsRef(), codec, now);
  }

  /** Two different well-formed emails both sign up; the same one twice is refused. */
  method SignupTwoUsers(state: AppState, email1: string, email2: string, password: string)
    returns (first: Result<SignupRoute.SignupResponse, AuthAPIError>,
             second: Result<SignupRoute.SignupResponse, AuthAPIError>,
             again: Result<SignupRoute.SignupResponse, AuthAPIError>)
    requires state.Valid()
    requires ParseEmail(email1).Ok? && ParseEmail(email2).Ok? && ParsePassword(password).Ok?
    requires email1 != email2
    requires Email(email1) !in state.userStore.users && Email(email2) !in state.userStore.users
    modifies state.userStore
    ensures first.Ok? && second.Ok?
    ensures again == Err(UserAlreadyExists)
    ensures Email(email1) in state.userStore.users && Email(email2) in state.userStore.users
  {
    first := SignupRoute.Signup(state, email1, password, false);
    second := SignupRoute.Signup(state, email2, password, true);
    again := SignupRoute.Signup(state, email1, password, true);
  }
}
