/** The older `HashmapUserStore`, keyed by plain strings and holding string-field users. */
module LegacyUserStoreImpl {
  import opened Wrappers

  /** The `User` record with `String` fields. */
  datatype User = User(email: string, password: string, requires2fa: bool)

  /** This revision declares its own copy of the error enum. */
  datatype UserStoreError = UserAlreadyExists | UserNotFound | InvalidCredentials | UnexpectedError

  class HashmapUserStore {
    var users: map<string, User>

    constructor ()
      ensures users == map[]
    {
      users := map[];
    }

    /** `add_user`: insert under `user.email`, or refuse a key that is already present. */
    method AddUser(user: User) returns (r: Result<(), UserStoreError>)
      modifies this
      ensures user.email in old(users) ==> r == Err(UserAlreadyExists) && users == old(users)
      ensures user.email !in old(users) ==> r == Ok(()) && users == old(users)[user.email := user]
    {
      if user.email in users {
        r := Err(UserAlreadyExists);
      } else {
        users := users[user.email := user];
        r := Ok(());
      }
    }

    /** `get_user`: the stored record or `UserNotFound`. */
    method GetUser(email: string) returns (r: Result<User, UserStoreError>)
      ensures r.Ok? <==> email in users
      ensures r.Ok? ==> r.value == users[email]
      ensures r.Err? ==> r.error == UserNotFound
    {
      if email in users {
        r := Ok(users[email]);
      } else {
        r := Err(UserNotFound);
      }
    }

    /** `verify_user`: exact string match of the password, `InvalidCredentials` otherwise, `UserNotFound` when absent. */
    method VerifyUser(email: string, password: string) returns (r: Result<(), UserStoreError>)
      ensures r == Ok(()) <==> email in users && users[email].password == password
      ensures r == Err(UserNotFound) <==> email !in users
      ensures r == Err(InvalidCredentials) <==> email in users && users[email].password != password
    {
      if email in users {
        if users[email].password == password {
          r := Ok(());
        } else {
          r := Err(InvalidCredentials);
        }
      } else {
        r := Err(UserNotFound);
      }
    }
  }

  /** The unit tests: a record added to an empty store is found under its email and verifies. */
  method AddGetVerify(user: User) returns (added: Result<(), UserStoreError>, found: Result<User, UserStoreError>, verified: Result<(), UserStoreError>)
    ensures added == Ok(()) && found == Ok(user) && verified == Ok(())
  {
    var store := new HashmapUserStore();
    added := store.AddUser(user);
    found := store.GetUser(user.email);
    verified := store.VerifyUser(user.email, user.password);
  }
}
