/** The current `HashmapTwoFACodeStore`: one pending (attempt id, code) pair per email, overwritten by `add_code`. */
module TwoFACodeStoreImpl {
  import opened Wrappers
  import opened DomainEmail
  import opened DomainDataStores

  class HashmapTwoFACodeStore {
    var codes: map<Email, (LoginAttemptId, TwoFACode)>

    constructor ()
      ensures codes == map[]
    {
      codes := map[];
    }

    /** `add_code`: always succeeds and replaces any pair pending for `email`. */
    method AddCode(email: Email, loginAttemptId: LoginAttemptId, code: TwoFACode) returns (r: Result<(), TwoFACodeStoreError>)
      modifies this
      ensures r == Ok(())
      ensures codes == old(codes)[email := (loginAttemptId, code)]
    {
      codes := codes[email := (loginAttemptId, code)];
      r := Ok(());
    }

    /** `remove_code`: deletes the pair for `email`, or reports `LoginAttemptIdNotFound` when there is none. */
    method RemoveCode(email: Email) returns (r: Result<(), TwoFACodeStoreError>)
      modifies this
      ensures email in old(codes) ==> r == Ok(())
      ensures email !in old(codes) ==> r == Err(LoginAttemptIdNotFound)
      ensures codes == old(codes) - {email}
    {
      if email in codes {
        codes := codes - {email};
        r := Ok(());
      } else {
        r := Err(LoginAttemptIdNotFound);
      }
    }

    /** `get_code`: a copy of the pending pair, or `LoginAttemptIdNotFound`. */
    method GetCode(email: Email) returns (r: Result<(LoginAttemptId, TwoFACode), TwoFACodeStoreError>)
      ensures r.Ok? <==> email in codes
      ensures r.Ok? ==> r.value == codes[email]
      ensures r.Err? ==> r.error == LoginAttemptIdNotFound
    {
      if email in codes {
        r := Ok(codes[email]);
      } else {
        r := Err(LoginAttemptIdNotFound);
      }
    }
  }

  /** The unit tests: what was added is read back, and once removed it is gone. */
  method AddGetRemove(email: Email, loginAttemptId: LoginAttemptId, code: TwoFACode)
    returns (got: Result<(LoginAttemptId, TwoFACode), TwoFACodeStoreError>,
             removed: Result<(), TwoFACodeStoreError>,
             gotAfter: Result<(LoginAttemptId, TwoFACode), TwoFACodeStoreError>,
             removedAgain: Result<(), TwoFACodeStoreError>)
    ensures got == Ok((loginAttemptId, code))
    ensures removed == Ok(())
    ensures gotAfter == Err(LoginAttemptIdNotFound)
    ensures removedAgain == Err(LoginAttemptIdNotFound)
  {
    var store := new HashmapTwoFACodeStore();
    var _ := store.AddCode(email, loginAttemptId, code);
    got := store.GetCode(email);
    removed := store.RemoveCode(email);
    gotAfter := store.GetCode(email);
    removedAgain := store.RemoveCode(email);
  }

  /** A second `add_code` for the same email replaces the first pair. */
  method AddTwice(email: Email, id1: LoginAttemptId, code1: TwoFACode, id2: LoginAttemptId, code2: TwoFACode)
    returns (got: Result<(LoginAttemptId, TwoFACode), TwoFACodeStoreError>)
    ensures got == Ok((id2, code2))
  {
    var store := new HashmapTwoFACodeStore();
    var _ := store.AddCode(email, id1, code1);
    var _ := store.AddCode(email, id2, code2);
    got := store.GetCode(email);
  }
}
