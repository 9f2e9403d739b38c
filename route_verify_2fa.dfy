/** The verify-2fa handler: match the pending pair, consume it, and issue the session cookie. */
module Verify2FARoute {
  import opened Wrappers
  import opened DomainEmail
  import opened DomainError
  import opened DomainDataStores
  import opened Cookies
  import opened Auth
  import opened Store

  const OK: nat := 200

  /** All three inputs parse. */
  predicate InputsParse(email: string, loginAttemptId: string, twoFACode: string)
  {
    ParseEmail(email).Ok? && ParseLoginAttemptId(loginAttemptId).Ok? && ParseTwoFACode(twoFACode).Ok?
  }

  /** The pending pair for `email` is the one the (parsed) inputs name. */
  predicate PairMatches(codes: map<Email, (LoginAttemptId, TwoFACode)>, email: string, loginAttemptId: string, twoFACode: string)
    requires InputsParse(email, loginAttemptId, twoFACode)
  {
    Email(email) in codes &&
    codes[Email(email)] == (ParseLoginAttemptId(loginAttemptId).value, ParseTwoFACode(twoFACode).value)
  }

  /**
   * `verify_2fa`: any input that does not parse gives `InvalidCredentials`;
   * no pending pair, or a pair that differs in the attempt id or the code,
   * gives `IncorrectCredentials` and leaves the store alone; a full match
   * removes the pair and adds the auth cookie.  The removal comes before
   * token generation, so a pair is consumed even when generation fails.
   */
  method Verify2FA(state: AppState, jar: CookieJar, email: string, loginAttemptId: string, twoFACode: string, codec: Codec, now: int)
    returns (jar': CookieJar, r: Result<nat, AuthAPIError>)
    modifies state.twoFACodeStore
    ensures !InputsParse(email, loginAttemptId, twoFACode) ==>
      r == Err(AuthAPIError.InvalidCredentials) && jar' == jar && state.twoFACodeStore.codes == old(state.twoFACodeStore.codes)
    ensures InputsParse(email, loginAttemptId, twoFACode) && !PairMatches(old(state.twoFACodeStore.codes), email, loginAttemptId, twoFACode) ==>
      r == Err(AuthAPIError.IncorrectCredentials) && jar' == jar && state.twoFACodeStore.codes == old(state.twoFACodeStore.codes)
    ensures InputsParse(email, loginAttemptId, twoFACode) && PairMatches(old(state.twoFACodeStore.codes), email, loginAttemptId, twoFACode) ==>
      state.twoFACodeStore.codes == old(state.twoFACodeStore.codes) - {Email(email)} &&
      (GenerateAuthToken(codec, Email(email), now).Ok? ==>
         r == Ok(OK) && jar' == jar.Add(CreateAuthCookie(GenerateAuthToken(codec, Email(email), now).value))) &&
      (GenerateAuthToken(codec, Email(email), now).Err? ==> r == Err(AuthAPIError.UnexpectedError) && jar' == jar)
  {
    var emailParsed := ParseEmail(email);
    if emailParsed.Err? {
      return jar, Err(AuthAPIError.InvalidCredentials);
    }
    var idParsed := ParseLoginAttemptId(loginAttemptId);
    if idParsed.Err? {
      return jar, Err(AuthAPIError.InvalidCredentials);
    }
    var codeParsed := ParseTwoFACode(twoFACode);
    if codeParsed.Err? {
      return jar, Err(AuthAPIError.InvalidCredentials);
    }
    var codeTuple := state.twoFACodeStore.GetCode(emailParsed.value);
    if codeTuple.Err? {
      return jar, Err(AuthAPIError.IncorrectCredentials);
    }
    if codeTuple.value.0.AsRef() != idParsed.value.AsRef() || codeTuple.value.1.AsRef() != codeParsed.value.AsRef() {
      return jar, Err(AuthAPIError.IncorrectCredentials);
    }
    var removed := state.twoFACodeStore.RemoveCode(emailParsed.value);
    if removed.Err? {
      return jar, Err(AuthAPIError.UnexpectedError);
    }
    var authCookie := GenerateAuthCookie(codec, emailParsed.value, now);
    if authCookie.Err? {
      return jar, Err(AuthAPIError.UnexpectedError);
    }
    jar' := jar.Add(authCookie.value);
    r := Ok(OK);
  }
}
