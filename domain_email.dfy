/** `Email`: a string that has passed the '@' check. */
module DomainEmail {
  import opened Wrappers

  datatype Email = Email(address: string) {

    /** `as_ref`: the wrapped string. */
    function AsRef(): string
    {
      address
    }

    /**
     * `Email::parse(&self)` as written: the wrapped string when it contains
     * an '@', the message "failed" otherwise.
     */
    function Parse(): (r: Result<string, string>)
      ensures r.Ok? <==> '@' in address
      ensures r.Ok? ==> r.value == address
      ensures r.Err? ==> r.error == "failed"
    {
      if '@' in AsRef() then Ok(AsRef()) else Err("failed")
    }
  }

  /**
   * The constructor the callers use, `Email::parse(raw)`: wrap the raw
   * string and keep it when the check above accepts it.
   */
  function ParseEmail(raw: string): (r: Result<Email, string>)
    ensures r.Ok? <==> exists i :: 0 <= i < |raw| && raw[i] == '@'
    ensures r.Ok? ==> r.value.AsRef() == raw
    ensures r.Err? ==> r.error == "failed"
  {
    match Email(raw).Parse()
    case Ok(_) => Ok(Email(raw))
    case Err(e) => Err(e)
  }

  /** Parsing never normalises: an accepted string is returned and stored unchanged. */
  lemma ParseEmailRoundTrip(e: Email)
    requires e.Parse().Ok?
    ensures ParseEmail(e.AsRef()) == Ok(e)
  {
  }
}
