/** The older `HashmapTwoFACodeStore`, whose `add_code` refuses an email that already has a pending pair. */
module LegacyTwoFACodeStoreImpl {
  import opened Wrappers
  import opened DomainEmail
  import opened DomainDataStores

  class HashmapTwoFACodeStore {
    var codes: map<Email, (LoginAttemptId, TwoFACode)>

    constructor ()
      ensures codes == map[]
    {
      codes := map[];
    }

    /**
     * `add_code`: `CodeAlreadyExists` when a pair is pending, otherwise insert.
     * The check after the insertion that reports `UnexpectedError` never fires.
     */
    method AddCode(email: Email, loginAttemptId: LoginAttemptId, code: TwoFACode) returns (r: Result<(), TwoFACodeStoreError>)
      modifies this
      ensures email in old(codes) ==> r == Err(CodeAlreadyExists) && codes == old(codes)
      ensures email !in old(codes) ==> r == Ok(()) && codes == old(codes)[email := (loginAttemptId, code)]
    {
      var existing := GetCode(email);
      if existing.Ok? {
        return Err(CodeAlreadyExists);
      }
      codes := codes[email := (loginAttemptId, code)];
      var stored := GetCode(email);
      if stored.Err? {
        return Err(TwoFACodeStoreError.UnexpectedError);
      }
      r := Ok(());
    }

    /** `remove_code`: deletes a present pair, or reports `LoginAttemptIdNotFound`. */
    method RemoveCode(email: Email) returns (r: Result<(), TwoFACodeStoreError>)
      modifies this
      ensures email in old(codes) ==> r == Ok(())
      ensures email !in old(codes) ==> r == Err(LoginAttemptIdNotFound)
      ensures codes == old(codes) - {email}
    {
      if email in codes {
        codes := codes - {email};
        r := Ok(());
      } else {
        r := Err(LoginAttemptIdNotFound);
      }
    }

    /** `get_code`: the pending pair or `LoginAttemptIdNotFound`. */
    method GetCode(email: Email) returns (r: Result<(LoginAttemptId, TwoFACode), TwoFACodeStoreError>)
      ensures r.Ok? <==> email in codes
      ensures r.Ok? ==> r.value == codes[email]
      ensures r.Err? ==> r.error == LoginAttemptIdNotFound
    {
      if email in codes {
        r := Ok(codes[email]);
      } else {
        r := Err(LoginAttemptIdNotFound);
      }
    }
  }

  /** The unit test: add to an empty store and read the same pair back; a second add is refused. */
  method AddGetAddAgain(email: Email, loginAttemptId: LoginAttemptId, code: TwoFACode, otherId: LoginAttemptId, otherCode: TwoFACode)
    returns (added: Result<(), TwoFACodeStoreError>,
             got: Result<(LoginAttemptId, TwoFACode), TwoFACodeStoreError>,
             addedAgain: Result<(), TwoFACodeStoreError>,
             gotAgain: Result<(LoginAttemptId, TwoFACode), TwoFACodeStoreError>)
    ensures added == Ok(()) && got == Ok((loginAttemptId, code))
    ensures addedAgain == Err(CodeAlreadyExists) && gotAgain == Ok((loginAttemptId, code))
  {
    var store := new HashmapTwoFACodeStore();
    added := store.AddCode(email, loginAttemptId, code);
    got := store.GetCode(email);
    addedAgain := store.AddCode(email, otherId, otherCode);
    gotAgain := store.GetCode(email);
  }
}
