/** The logout handler: ban the token in the "jwt" cookie and drop the cookie. */
module LogoutRoute {
  import opened Wrappers
  import opened DomainError
  import opened Cookies
  import opened Auth
  import opened Store

  const OK: nat := 200

  /**
   * `logout`: `MissingToken` without a "jwt" cookie; `InvalidToken` when the
   * token does not validate (banned ones included); otherwise ban it, remove
   * the cookie and answer 200.  A failing `add_token` would give
   * `UnexpectedError` and keep the cookie; after a successful validation it cannot fail.
   */
  method Logout(state: AppState, jar: CookieJar, codec: Codec, now: int)
    returns (jar': CookieJar, r: Result<nat, AuthAPIError>)
    requires state.Valid()
    modifies state.bannedTokensStore
    ensures state.Valid()
    ensures old(state.bannedTokensStore.tokens).Keys <= state.bannedTokensStore.tokens.Keys
    ensures jar.Get(JWT_COOKIE_NAME).None? ==>
      r == Err(MissingToken) && jar' == jar && state.bannedTokensStore.tokens == old(state.bannedTokensStore.tokens)
    ensures jar.Get(JWT_COOKIE_NAME).Some? &&
            ValidateToken(codec, old(state.bannedTokensStore.tokens), jar.Get(JWT_COOKIE_NAME).value.value, now).Err? ==>
      r == Err(InvalidToken) && jar' == jar && state.bannedTokensStore.tokens == old(state.bannedTokensStore.tokens)
    ensures jar.Get(JWT_COOKIE_NAME).Some? &&
            ValidateToken(codec, old(state.bannedTokensStore.tokens), jar.Get(JWT_COOKIE_NAME).value.value, now).Ok? ==>
      var token := jar.Get(JWT_COOKIE_NAME).value.value;
      r == Ok(OK) && jar' == jar.Remove(JWT_COOKIE_NAME) &&
      state.bannedTokensStore.tokens == old(state.bannedTokensStore.tokens)[token := token]
  {
    var cookie := jar.Get(JWT_COOKIE_NAME);
    if cookie.None? {
      return jar, Err(MissingToken);
    }
    var token := cookie.value.value;
    if ValidateToken(codec, state.bannedTokensStore.tokens, token, now).Err? {
      return jar, Err(InvalidToken);
    }
    var added := state.bannedTokensStore.AddToken(token);
    if added.Err? {
      return jar, Err(UnexpectedError);
    }
    jar' := jar.Remove(JWT_COOKIE_NAME);
    r := Ok(OK);
  }

  /** After a successful logout the token never validates again, whatever the clock. */
  lemma LoggedOutTokenRejected(codec: Codec, banned: map<string, string>, token: string, now: int, later: int)
    requires ValidateToken(codec, banned, token, now).Ok?
    ensures ValidateToken(codec, banned[token := token], token, later) == Err(Banned)
  {
    assert token != "";
  }
}
