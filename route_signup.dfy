/** The signup handler. */
module SignupRoute {
  import opened Wrappers
  import opened DomainEmail
  import opened DomainPassword
  import opened DomainUser
  import opened DomainError
  import opened Store

  const CREATED: nat := 201

  datatype SignupResponse = SignupResponse(status: nat, message: string)

  /**
   * Parse both inputs (`InvalidCredentials` on failure, before the store is
   * touched), refuse a registered email with `UserAlreadyExists`, otherwise
   * add the user and answer 201.  A failing `add_user` would give
   * `UnexpectedError`; after the lookup under the same write lock it cannot fail.
   */
  method Signup(state: AppState, email: string, password: string, requires2fa: bool)
    returns (r: Result<SignupResponse, AuthAPIError>)
    requires state.Valid()
    modifies state.userStore
    ensures state.Valid()
    ensures ParseEmail(email).Err? || ParsePassword(password).Err? ==>
      r == Err(InvalidCredentials) && state.userStore.users == old(state.userStore.users)
    ensures ParseEmail(email).Ok? && ParsePassword(password).Ok? && Email(email) in old(state.userStore.users) ==>
      r == Err(UserAlreadyExists) && state.userStore.users == old(state.userStore.users)
    ensures ParseEmail(email).Ok? && ParsePassword(password).Ok? && Email(email) !in old(state.userStore.users) ==>
      r == Ok(SignupResponse(CREATED, "User Created Successfully!")) &&
      state.userStore.users == old(state.userStore.users)[Email(email) := User(Email(email), Password(password), requires2fa)]
  {
    var emailParsed := ParseEmail(email);
    if emailParsed.Err? {
      return Err(InvalidCredentials);
    }
    var passwordParsed := ParsePassword(password);
    if passwordParsed.Err? {
      return Err(InvalidCredentials);
    }
    var user := User(emailParsed.value, passwordParsed.value, requires2fa);
    var existing := state.userStore.GetUser(user.email);
    if existing.Ok? {
      return Err(UserAlreadyExists);
    }
    var added := state.userStore.AddUser(user);
    if added.Err? {
      return Err(UnexpectedError);
    }
    r := Ok(SignupResponse(CREATED, "User Created Successfully!"));
  }
}
