/**
 * The store error enums and the two challenge value types, `LoginAttemptId`
 * and `TwoFACode`, with their parsers and their random defaults.
 */
module DomainDataStores {
  import opened Wrappers
  import opened Text
  import Uuid

  datatype UserStoreError = UserAlreadyExists | UserNotFound | InvalidCredentials | UnexpectedError

  datatype BannedTokenStoreError = TokenAlreadyExists | TokenNotFound | InvalidToken | UnexpectedError

  datatype TwoFACodeStoreError = LoginAttemptIdNotFound | CodeAlreadyExists | UnexpectedError

  /** A login attempt id; the parser stores the canonical rendering of the UUID. */
  datatype LoginAttemptId = LoginAttemptId(id: string) {
    function AsRef(): string
    {
      id
    }
  }

  /**
   * `LoginAttemptId::parse`: accepts exactly what `Uuid::parse_str` accepts
   * and keeps `to_string` of the parsed UUID, not the raw input.
   */
  function ParseLoginAttemptId(raw: string): (r: Result<LoginAttemptId, string>)
    ensures r.Ok? <==> Uuid.ParseStr(raw).Some?
    ensures r.Ok? ==> r.value.AsRef() == Uuid.ToString(Uuid.ParseStr(raw).value)
    ensures r.Err? ==> r.error == "Failed to parse uuid"
  {
    match Uuid.ParseStr(raw)
    case Some(u) => Ok(LoginAttemptId(Uuid.ToString(u)))
    case None => Err("Failed to parse uuid")
  }

  /** Parsing is idempotent: re-parsing the stored string gives back the same id. */
  lemma ParseLoginAttemptIdIdempotent(raw: string)
    requires ParseLoginAttemptId(raw).Ok?
    ensures ParseLoginAttemptId(ParseLoginAttemptId(raw).value.AsRef()) == ParseLoginAttemptId(raw)
  {
    Uuid.ParseStrToString(Uuid.ParseStr(raw).value);
  }

  /**
   * Every spelling of one UUID (either case; simple, hyphenated, braced or
   * URN form) parses to the same stored id.
   */
  lemma ParseLoginAttemptIdCanonical(u: Uuid.Uuid, upper: bool)
    ensures ParseLoginAttemptId(Uuid.Hyphenated(u, upper)) == Ok(LoginAttemptId(Uuid.ToString(u)))
    ensures ParseLoginAttemptId(Uuid.Simple(u, upper)) == Ok(LoginAttemptId(Uuid.ToString(u)))
    ensures ParseLoginAttemptId("{" + Uuid.Hyphenated(u, upper) + "}") == Ok(LoginAttemptId(Uuid.ToString(u)))
    ensures ParseLoginAttemptId("urn:uuid:" + Uuid.Hyphenated(u, upper)) == Ok(LoginAttemptId(Uuid.ToString(u)))
  {
    Uuid.ParseStrHyphenated(u, upper);
    Uuid.ParseStrSimple(u, upper);
    Uuid.ParseStrBraced(u, upper);
    Uuid.ParseStrUrn(u, upper);
  }

  /** `LoginAttemptId::default`: the rendering of a fresh version-4 UUID drawn from `random`. */
  function DefaultLoginAttemptId(random: Uuid.Uuid): (r: LoginAttemptId)
    ensures ParseLoginAttemptId(r.AsRef()) == Ok(r)
  {
    var u := Uuid.NewV4(random);
    Uuid.ParseStrToString(u);
    LoginAttemptId(Uuid.ToString(u))
  }

  /** A 2FA code; the parser stores the input string unchanged. */
  datatype TwoFACode = TwoFACode(code: string) {
    function AsRef(): string
    {
      code
    }
  }

  const TWO_FA_CODE_BYTES: nat := 6

  /**
   * `TwoFACode::parse`: the input must be six bytes long and must be
   * accepted by Rust's `u32` parser.  No range check is made.
   */
  function ParseTwoFACode(raw: string): (r: Result<TwoFACode, string>)
    ensures Utf8Length(raw) != TWO_FA_CODE_BYTES ==> r == Err("Code too short!")
    ensures Utf8Length(raw) == TWO_FA_CODE_BYTES ==> (r.Ok? <==> ParseU32(raw).Some?)
    ensures r.Ok? ==> r.value.AsRef() == raw
    ensures r.Err? && Utf8Length(raw) == TWO_FA_CODE_BYTES ==> r.error == "Failed to parse code"
  {
    if Utf8Length(raw) != TWO_FA_CODE_BYTES then Err("Code too short!")
    else match ParseU32(raw)
      case Some(_) => Ok(TwoFACode(raw))
      case None => Err("Failed to parse code")
  }

  /**
   * A six-byte string is accepted exactly when it is six ASCII digits
   * (leading zeros allowed) or '+' followed by five ASCII digits.
   */
  lemma ParseTwoFACodeAccepts(raw: string)
    requires Utf8Length(raw) == TWO_FA_CODE_BYTES
    ensures ParseTwoFACode(raw).Ok? <==>
      (|raw| == 6 && AllDigits(raw)) || (|raw| == 6 && raw[0] == '+' && AllDigits(raw[1..]))
  {
    Utf8LengthBounds(raw);
    if ParseTwoFACode(raw).Ok? {
      var digits := if raw[0] == '+' then raw[1..] else raw;
      assert AllDigits(digits);
      assert IsAscii(raw) by {
        forall i | 0 <= i < |raw| ensures raw[i] as int < 0x80 {
          if raw[0] == '+' && i > 0 { assert raw[i] == digits[i - 1]; }
          else if raw[0] != '+' { assert raw[i] == digits[i]; }
        }
      }
    } else if |raw| == 6 && AllDigits(raw) {
      DecimalValueBound(raw);
    } else if |raw| == 6 && raw[0] == '+' && AllDigits(raw[1..]) {
      DecimalValueBound(raw[1..]);
    }
  }

  /** Six digits with leading zeros, and a '+' sign, both pass although they lie outside 100000..=999999. */
  lemma ParseTwoFACodeNoRangeCheck()
    ensures ParseTwoFACode("000123").Ok?
    ensures ParseTwoFACode("+12345").Ok?
  {
    assert IsAscii("000123");
    Utf8LengthOfAscii("000123");
    ParseTwoFACodeAccepts("000123");
    assert IsAscii("+12345");
    Utf8LengthOfAscii("+12345");
    assert "+12345"[1..] == "12345";
    ParseTwoFACodeAccepts("+12345");
  }

  /** Lower and upper bound of `gen_range(100000..999999)`; the upper one is excluded. */
  const CODE_LOW: nat := 100000
  const CODE_HIGH: nat := 999999

  /** `TwoFACode::default`: the decimal rendering of a random draw from `CODE_LOW..CODE_HIGH`. */
  function DefaultTwoFACode(draw: nat): (r: TwoFACode)
    requires CODE_LOW <= draw < CODE_HIGH
    ensures |r.AsRef()| == 6 && AllDigits(r.AsRef()) && DecimalValue(r.AsRef()) == draw
    ensures ParseTwoFACode(r.AsRef()) == Ok(r)
  {
    var s := ToDecimal(draw);
    ToDecimalCorrect(draw);
    ToDecimalLength(draw, 5);
    assert IsAscii(s) by {
      forall i | 0 <= i < |s| ensures s[i] as int < 0x80 { assert IsDigit(s[i]); }
    }
    Utf8LengthOfAscii(s);
    ParseU32ToDecimal(draw);
    TwoFACode(s)
  }
}
