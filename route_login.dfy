/** The login handler: direct session, or a 2FA challenge. */
module LoginRoute {
  import opened Wrappers
  import opened DomainEmail
  import opened DomainPassword
  import opened DomainUser
  import opened DomainError
  import DomainDataStores
  import Uuid
  import opened Cookies
  import opened Auth
  import opened Store
  import opened UserStoreImpl

  const OK: nat := 200
  const PARTIAL_CONTENT: nat := 206

  datatype LoginResponse = RegularAuth | TwoFactorAuth(message: string, loginAttemptId: string)

  datatype LoginReply = LoginReply(status: nat, body: LoginResponse)

  /** What the handler hands to the email client: recipient, subject and content. */
  datatype Notification = Notification(recipient: Email, subject: string, content: string)

  /** `handle_no_2fa`: the jar gains the auth cookie for `email`, or is returned unchanged with `UnexpectedError`. */
  function HandleNo2FA(codec: Codec, email: Email, jar: CookieJar, now: int): (res: (CookieJar, Result<LoginReply, AuthAPIError>))
    ensures GenerateAuthToken(codec, email, now).Ok? ==>
      res.1 == Ok(LoginReply(OK, RegularAuth)) &&
      res.0 == jar.Add(CreateAuthCookie(GenerateAuthToken(codec, email, now).value))
    ensures GenerateAuthToken(codec, email, now).Err? ==> res == (jar, Err(UnexpectedError))
  {
    match GenerateAuthCookie(codec, email, now)
    case Err(_) => (jar, Err(UnexpectedError))
    case Ok(cookie) => (jar.Add(cookie), Ok(LoginReply(OK, RegularAuth)))
  }

  /**
   * `handle_2fa`: store a fresh (attempt id, code) pair for `email`, mail the
   * code, and answer 206 with the attempt id.  The jar is returned unchanged.
   * A failing notifier gives `UnexpectedError` but leaves the pair stored.
   * The random sources are the parameters `attemptRandom` and `codeDraw`,
   * the notifier's outcome is `notifierOk`.
   */
  method Handle2FA(state: AppState, email: Email, jar: CookieJar, attemptRandom: Uuid.Uuid, codeDraw: nat, notifierOk: bool)
    returns (jar': CookieJar, r: Result<LoginReply, AuthAPIError>, sent: Option<Notification>)
    requires DomainDataStores.CODE_LOW <= codeDraw < DomainDataStores.CODE_HIGH
    modifies state.twoFACodeStore
    ensures jar' == jar
    ensures state.twoFACodeStore.codes ==
      old(state.twoFACodeStore.codes)[email := (DomainDataStores.DefaultLoginAttemptId(attemptRandom), DomainDataStores.DefaultTwoFACode(codeDraw))]
    ensures sent == Some(Notification(email, "2FA auth code", DomainDataStores.DefaultTwoFACode(codeDraw).AsRef()))
    ensures notifierOk ==>
      r == Ok(LoginReply(PARTIAL_CONTENT, TwoFactorAuth("2FA required", DomainDataStores.DefaultLoginAttemptId(attemptRandom).AsRef())))
    ensures !notifierOk ==> r == Err(UnexpectedError)
  {
    var loginAttemptId := DomainDataStores.DefaultLoginAttemptId(attemptRandom);
    var twoFACode := DomainDataStores.DefaultTwoFACode(codeDraw);
    var added := state.twoFACodeStore.AddCode(email, loginAttemptId, twoFACode);
    if added.Err? {
      return jar, Err(UnexpectedError), None;
    }
    sent := Some(Notification(email, "2FA auth code", twoFACode.AsRef()));
    if !notifierOk {
      return jar, Err(UnexpectedError), sent;
    }
    jar' := jar;
    r := Ok(LoginReply(PARTIAL_CONTENT, TwoFactorAuth("2FA required", loginAttemptId.AsRef())));
  }

  /**
   * `login`: a malformed email or password is refused with
   * `InvalidCredentials` before any store is read; unknown user and wrong
   * password both give the single answer `IncorrectCredentials`; otherwise
   * branch on the stored `requires_2fa` flag.
   */
  method Login(state: AppState, jar: CookieJar, email: string, password: string, codec: Codec, now: int,
               attemptRandom: Uuid.Uuid, codeDraw: nat, notifierOk: bool)
    returns (jar': CookieJar, r: Result<LoginReply, AuthAPIError>, sent: Option<Notification>)
    requires state.Valid()
    requires DomainDataStores.CODE_LOW <= codeDraw < DomainDataStores.CODE_HIGH
    modifies state.twoFACodeStore
    ensures state.Valid()
    ensures ParseEmail(email).Err? || ParsePassword(password).Err? ==>
      r == Err(InvalidCredentials) && jar' == jar && sent == None &&
      state.twoFACodeStore.codes == old(state.twoFACodeStore.codes)
    ensures ParseEmail(email).Ok? && ParsePassword(password).Ok? &&
            !CredentialsMatch(state.userStore.users, Email(email), Password(password)) ==>
      r == Err(IncorrectCredentials) && jar' == jar && sent == None &&
      state.twoFACodeStore.codes == old(state.twoFACodeStore.codes)
    ensures ParseEmail(email).Ok? && ParsePassword(password).Ok? &&
            CredentialsMatch(state.userStore.users, Email(email), Password(password)) &&
            !state.userStore.users[Email(email)].requires2fa ==>
      (jar', r) == HandleNo2FA(codec, Email(email), jar, now) && sent == None &&
      state.twoFACodeStore.codes == old(state.twoFACodeStore.codes)
    ensures ParseEmail(email).Ok? && ParsePassword(password).Ok? &&
            CredentialsMatch(state.userStore.users, Email(email), Password(password)) &&
            state.userStore.users[Email(email)].requires2fa ==>
      jar' == jar &&
      state.twoFACodeStore.codes == old(state.twoFACodeStore.codes)[Email(email) :=
        (DomainDataStores.DefaultLoginAttemptId(attemptRandom), DomainDataStores.DefaultTwoFACode(codeDraw))] &&
      sent == Some(Notification(Email(email), "2FA auth code", DomainDataStores.DefaultTwoFACode(codeDraw).AsRef())) &&
      r == (if notifierOk
            then Ok(LoginReply(PARTIAL_CONTENT, TwoFactorAuth("2FA required", DomainDataStores.DefaultLoginAttemptId(attemptRandom).AsRef())))
            else Err(UnexpectedError))
  {
    var emailParsed := ParseEmail(email);
    if emailParsed.Err? {
      return jar, Err(InvalidCredentials), None;
    }
    var passwordParsed := ParsePassword(password);
    if passwordParsed.Err? {
      return jar, Err(passwordParsed.error), None;
    }
    var verified := state.userStore.VerifyUser(emailParsed.value, passwordParsed.value);
    if verified.Err? {
      return jar, Err(IncorrectCredentials), None;
    }
    var found := state.userStore.GetUser(emailParsed.value);
    if found.Err? {
      return jar, Err(IncorrectCredentials), None;
    }
    var user := found.value;
    if user.requires2fa {
      jar', r, sent := Handle2FA(state, user.email, jar, attemptRandom, codeDraw, notifierOk);
    } else {
      var outcome := HandleNo2FA(codec, user.email, jar, now);
      jar', r := outcome.0, outcome.1;
      sent := None;
    }
  }
}
