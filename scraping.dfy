/**
 * The form checks of src/stockwatch/app/pages/scraping.py: the validity flags
 * of the login fields and whether the execute button is disabled. A missing
 * field value (`None`) is `Option.None`.
 */
module ScrapingPage {
  import opened Wrappers
  import opened Text

  /** The `(valid, invalid)` pair each validator returns. */
  datatype ValidationOutput = ValidationOutput(valid: bool, invalid: bool)

  /** Python's truthiness of `str | None`: neither `None` nor the empty string. */
  predicate Filled(input: Option<string>)
  {
    input.Some? && input.value != []
  }

  /** `disable_execute`: the button stays disabled unless all three fields are valid. */
  function DisableExecute(usernameValid: bool, passwordValid: bool, goauthValid: bool): (disabled: bool)
    ensures !disabled <==> usernameValid && passwordValid && goauthValid
  {
    !(usernameValid && passwordValid && goauthValid)
  }

  /** `validate_password`: valid iff a password was typed. */
  function ValidatePassword(password: Option<string>): (r: ValidationOutput)
    ensures r.valid <==> Filled(password)
    ensures r.invalid == !r.valid
  {
    if !Filled(password) then ValidationOutput(false, true) else ValidationOutput(true, false)
  }

  /**
   * `validate_goauth`: an empty code is valid (the account may not use one);
   * otherwise it must be numeric and six characters long.
   */
  function ValidateGoauth(goauth: Option<string>): (r: ValidationOutput)
    ensures r.valid <==> !Filled(goauth) || (|goauth.value| == 6 && AllDigits(goauth.value))
    ensures r.invalid == !r.valid
  {
    if !Filled(goauth) then ValidationOutput(true, false)
    else if !AllDigits(goauth.value) then ValidationOutput(false, true)
    else if |goauth.value| != 6 then ValidationOutput(false, true)
    else ValidationOutput(true, false)
  }

  /** `validate_accountid`: valid iff a user name was typed. */
  function ValidateAccountId(username: Option<string>): (r: ValidationOutput)
    ensures r.valid <==> Filled(username)
    ensures r.invalid == !r.valid
  {
    if !Filled(username) then ValidationOutput(false, true) else ValidationOutput(true, false)
  }

  /** The codes the page's tests try. */
  lemma GoauthOracles()
    ensures !ValidateGoauth(Some("a12345")).valid && !ValidateGoauth(Some("aebfib")).valid
    ensures !ValidateGoauth(Some("1234567")).valid && !ValidateGoauth(Some("1241")).valid
    ensures !ValidateGoauth(Some("-323456")).valid
    ensures ValidateGoauth(Some("123456")).valid && ValidateGoauth(Some("000000")).valid
    ensures ValidateGoauth(Some("039485")).valid && ValidateGoauth(Some("")).valid && ValidateGoauth(None).valid
  {
    assert !IsDigit("a12345"[0]) && !IsDigit("aebfib"[0]) && !IsDigit("-323456"[0]);
  }

  /** The execute button is enabled exactly when both typed credentials and the code are acceptable. */
  lemma ExecuteEnabledByForm(username: Option<string>, password: Option<string>, goauth: Option<string>)
    ensures !DisableExecute(ValidateAccountId(username).valid, ValidatePassword(password).valid, ValidateGoauth(goauth).valid)
      <==> Filled(username) && Filled(password) && ValidateGoauth(goauth).valid
  {
  }
}
