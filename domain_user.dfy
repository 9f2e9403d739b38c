/** The user record the current revision stores: a validated email, a validated password and the 2FA flag. */
module DomainUser {
  import opened DomainEmail
  import opened DomainPassword

  datatype User = User(email: Email, password: Password, requires2fa: bool)
}
