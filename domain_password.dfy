/** `Password`: a string of at least eight UTF-8 bytes. */
module DomainPassword {
  import opened Wrappers
  import opened Text
  import opened DomainError

  const MIN_PASSWORD_BYTES: nat := 8

  /** Equality of passwords is equality of the wrapped strings (the derived `PartialEq`). */
  datatype Password = Password(secret: string) {

    /** `as_ref`: the wrapped string. */
    function AsRef(): string
    {
      secret
    }
  }

  /** `Password::parse`: rejects fewer than eight bytes with `InvalidCredentials`. */
  function ParsePassword(raw: string): (r: Result<Password, AuthAPIError>)
    ensures r.Ok? <==> Utf8Length(raw) >= MIN_PASSWORD_BYTES
    ensures r.Ok? ==> r.value.AsRef() == raw
    ensures r.Err? ==> r.error == InvalidCredentials
  {
    if Utf8Length(raw) < MIN_PASSWORD_BYTES then Err(InvalidCredentials) else Ok(Password(raw))
  }

  /** For ASCII input the bound is on characters: seven are rejected, eight accepted. */
  lemma AsciiPasswordBoundary(raw: string)
    requires IsAscii(raw)
    ensures ParsePassword(raw).Ok? <==> |raw| >= 8
  {
    Utf8LengthOfAscii(raw);
  }

  /** The bound counts bytes, not characters: four two-byte characters pass. */
  lemma PasswordCountsBytes()
    ensures ParsePassword("\U{e9}\U{e9}\U{e9}\U{e9}").Ok?
  {
    var s := "\U{e9}\U{e9}\U{e9}\U{e9}";
    assert s[1..][1..][1..][1..] == [];
    assert Utf8Length(s[1..][1..][1..]) == 2;
  }

  /** The unit tests in `password.rs`: "long-enough" wraps unchanged, "bad" is rejected. */
  lemma ParsePasswordExamples()
    ensures ParsePassword("long-enough") == Ok(Password("long-enough"))
    ensures ParsePassword("bad") == Err(InvalidCredentials)
  {
    assert IsAscii("bad");
    Utf8LengthOfAscii("bad");
  }

  lemma PasswordEquality(p: Password, q: Password)
    ensures p == q <==> p.AsRef() == q.AsRef()
  {
  }
}
