/** The current `HashmapUserStore`: users keyed by their validated email. */
module UserStoreImpl {
  import opened Wrappers
  import opened DomainEmail
  import opened DomainPassword
  import opened DomainUser
  import opened DomainDataStores

  /** A user is registered under `email` and the stored password equals `password`. */
  predicate CredentialsMatch(users: map<Email, User>, email: Email, password: Password)
  {
    email in users && users[email].password == password
  }

  class HashmapUserStore {
    var users: map<Email, User>

    /** Every key is the email of the user stored under it. */
    ghost predicate Valid()
      reads this
    {
      forall e | e in users :: users[e].email == e
    }

    constructor ()
      ensures Valid() && users == map[]
    {
      users := map[];
    }

    /** `add_user`: insert under `user.email`, or refuse an email that is already taken. */
    method AddUser(user: User) returns (r: Result<(), UserStoreError>)
      requires Valid()
      modifies this
      ensures Valid()
      ensures user.email in old(users) ==> r == Err(UserAlreadyExists) && users == old(users)
      ensures user.email !in old(users) ==> r == Ok(()) && users == old(users)[user.email := user]
    {
      if user.email in users {
        r := Err(UserAlreadyExists);
      } else {
        users := users[user.email := user];
        r := Ok(());
      }
    }

    /** `get_user`: the stored user, whose email is the one asked for, or `UserNotFound`. */
    method GetUser(email: Email) returns (r: Result<User, UserStoreError>)
      requires Valid()
      ensures r.Ok? <==> email in users
      ensures r.Ok? ==> r.value == users[email] && r.value.email == email
      ensures r.Err? ==> r.error == UserNotFound
    {
      if email in users {
        r := Ok(users[email]);
      } else {
        r := Err(UserNotFound);
      }
    }

    /** `verify_user`: Ok exactly when the user exists and the stored password equals the given one. */
    method VerifyUser(email: Email, password: Password) returns (r: Result<(), UserStoreError>)
      ensures r == Ok(()) <==> CredentialsMatch(users, email, password)
      ensures r == Err(UserNotFound) <==> email !in users
      ensures r == Err(InvalidCredentials) <==> email in users && users[email].password != password
    {
      if email in users {
        if users[email].password == password {
          r := Ok(());
        } else {
          r := Err(InvalidCredentials);
        }
      } else {
        r := Err(UserNotFound);
      }
    }
  }

  /** The unit tests: a user added to an empty store is found again and verifies with its password. */
  method AddGetVerify(user: User) returns (added: Result<(), UserStoreError>, found: Result<User, UserStoreError>, verified: Result<(), UserStoreError>)
    ensures added == Ok(()) && found == Ok(user) && verified == Ok(())
  {
    var store := new HashmapUserStore();
    added := store.AddUser(user);
    found := store.GetUser(user.email);
    verified := store.VerifyUser(user.email, user.password);
  }
}
