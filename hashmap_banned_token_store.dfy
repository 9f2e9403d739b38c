/** `HashmapBannedTokenStore`: the set of logged-out tokens, each stored under itself. */
module BannedTokenStoreImpl {
  import opened Wrappers
  import opened DomainDataStores

  /** `verify_token_exists` as a function of the stored map: an empty token is an error, not "absent". */
  function TokenExists(tokens: map<string, string>, token: string): (r: Result<bool, BannedTokenStoreError>)
    ensures r.Err? <==> token == ""
    ensures r.Err? ==> r.error == TokenNotFound
    ensures r == Ok(true) <==> token != "" && token in tokens
    ensures r == Ok(false) <==> token != "" && token !in tokens
  {
    if token == "" then Err(TokenNotFound)
    else if token in tokens then Ok(true)
    else Ok(false)
  }

  class HashmapBannedTokenStore {
    var tokens: map<string, string>

    /** Each stored value equals its key. */
    ghost predicate Valid()
      reads this
    {
      forall t | t in tokens :: tokens[t] == t
    }

    constructor ()
      ensures Valid() && tokens == map[]
    {
      tokens := map[];
    }

    /**
     * `add_token`: `TokenNotFound` for the empty token, `TokenAlreadyExists`
     * for a banned one, otherwise insert.  There is no removal: the set only grows.
     */
    method AddToken(token: string) returns (r: Result<(), BannedTokenStoreError>)
      requires Valid()
      modifies this
      ensures Valid()
      ensures old(tokens).Keys <= tokens.Keys
      ensures token == "" ==> r == Err(TokenNotFound) && tokens == old(tokens)
      ensures token != "" && token in old(tokens) ==> r == Err(TokenAlreadyExists) && tokens == old(tokens)
      ensures token != "" && token !in old(tokens) ==> r == Ok(()) && tokens == old(tokens)[token := token]
    {
      if token == "" {
        return Err(TokenNotFound);
      }
      if token in tokens {
        return Err(TokenAlreadyExists);
      }
      tokens := tokens[token := token];
      r := Ok(());
    }

    /** `verify_token_exists`. */
    method VerifyTokenExists(token: string) returns (r: Result<bool, BannedTokenStoreError>)
      ensures r == TokenExists(tokens, token)
    {
      if token == "" {
        return Err(TokenNotFound);
      }
      r := Ok(token in tokens);
    }
  }

  /** The unit tests: the empty token is refused, a token is added once and refused the second time. */
  method AddEmptyThenTwice(token: string)
    returns (empty: Result<(), BannedTokenStoreError>,
             first: Result<(), BannedTokenStoreError>,
             second: Result<(), BannedTokenStoreError>,
             present: Result<bool, BannedTokenStoreError>)
    requires token != ""
    ensures empty == Err(TokenNotFound)
    ensures first == Ok(()) && second == Err(TokenAlreadyExists)
    ensures present == Ok(true)
  {
    var store := new HashmapBannedTokenStore();
    empty := store.AddToken("");
    first := store.AddToken(token);
    second := store.AddToken(token);
    present := store.VerifyTokenExists(token);
  }
}
