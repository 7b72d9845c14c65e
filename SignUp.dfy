/** The checks of the sign-up form, run in order before the sign-up request is sent. */
module SignUp {
  import opened JsString

  const ErrorTitle := "Error"
  const FillInAllFields := "Please fill in all fields"
  const PasswordsDoNotMatch := "Passwords do not match"
  const PasswordTooShort := "Password must be at least 6 characters"
  const MinPasswordLength := 6

  /** What pressing "sign up" does: show an alert, ignore the press, or send the request. */
  datatype SignUpOutcome =
    | Alert(title: string, message: string)
    | AlreadySigningUp
    | Submit(email: string, password: string)

  /** All three fields are filled in: the e-mail is not blank and neither password is empty. */
  predicate Filled(email: string, password: string, confirmPassword: string)
  {
    !AllWhitespace(email) && password != "" && confirmPassword != ""
  }

  /**
   * handleSignUp: the first failing check decides the outcome, in the order
   * fields filled, passwords equal, password long enough, no sign-up running.
   * The request carries the trimmed e-mail and the password as typed.
   */
  function HandleSignUp(email: string, password: string, confirmPassword: string, isSigningUp: bool): (r: SignUpOutcome)
    ensures r == Alert(ErrorTitle, FillInAllFields) <==> !Filled(email, password, confirmPassword)
    ensures r == Alert(ErrorTitle, PasswordsDoNotMatch)
        <==> Filled(email, password, confirmPassword) && password != confirmPassword
    ensures r == Alert(ErrorTitle, PasswordTooShort)
        <==> Filled(email, password, confirmPassword) && password == confirmPassword
             && Utf16Length(password) < MinPasswordLength
    ensures r == AlreadySigningUp
        <==> Filled(email, password, confirmPassword) && password == confirmPassword
             && Utf16Length(password) >= MinPasswordLength && isSigningUp
    ensures r.Submit?
        <==> Filled(email, password, confirmPassword) && password == confirmPassword
             && Utf16Length(password) >= MinPasswordLength && !isSigningUp
    ensures r.Submit? ==>
              && r.email == Trim(email) && r.email != ""
              && !IsWhitespace(r.email[0]) && !IsWhitespace(r.email[|r.email| - 1])
              && r.password == password
  {
    if Trim(email) == "" || password == "" || confirmPassword == "" then Alert(ErrorTitle, FillInAllFields)
    else if password != confirmPassword then Alert(ErrorTitle, PasswordsDoNotMatch)
    else if Utf16Length(password) < MinPasswordLength then Alert(ErrorTitle, PasswordTooShort)
    else if isSigningUp then AlreadySigningUp
    else Submit(Trim(email), password)
  }

  /** A password of exactly six UTF-16 units, typed twice, is accepted. */
  lemma SixCharactersAccepted(email: string, password: string)
    requires !AllWhitespace(email) && Utf16Length(password) == MinPasswordLength
    ensures HandleSignUp(email, password, password, false) == Submit(Trim(email), password)
  {
  }

  /** For text in the Basic Multilingual Plane the length check counts characters. */
  lemma LengthCheckCountsCharacters(email: string, password: string)
    requires Filled(email, password, password)
    requires forall i :: 0 <= i < |password| ==> password[i] as int < 0x1_0000
    ensures HandleSignUp(email, password, password, false).Submit? <==> |password| >= MinPasswordLength
  {
  }
}
