/**
 * The field checks of the sign-up and log-in screens
 * (src/screens/SignupScreen.tsx, src/screens/LoginScreen.tsx). Each check
 * either sets an error message or clears it and marks the user logged in.
 * Fields are compared with `=== ''`: white space counts as content.
 */
module CredentialForms {
  import opened Common

  const FillAllMessage := "Please fill in all fields"
  const MismatchMessage := "Passwords do not match"

  /** The screen state after a check: the error shown and whether the user was marked logged in. */
  datatype FormResult = FormResult(error: string, loggedIn: bool)

  /** `handleSignup`. */
  function CheckSignup(email: string, password: string, confirm: string): (r: FormResult)
    ensures r.loggedIn <==> email != "" && password != "" && confirm != "" && password == confirm
    ensures r.loggedIn <==> r.error == ""
    ensures (email == "" || password == "" || confirm == "") ==> r.error == FillAllMessage
    ensures email != "" && password != "" && confirm != "" && password != confirm ==> r.error == MismatchMessage
  {
    if email == "" || password == "" || confirm == "" then FormResult(FillAllMessage, false)
    else if password != confirm then FormResult(MismatchMessage, false)
    else FormResult("", true)
  }

  /** `handleLogin`: only emptiness is checked. */
  function CheckLogin(email: string, password: string): (r: FormResult)
    ensures r.loggedIn <==> email != "" && password != ""
    ensures !r.loggedIn ==> r.error == FillAllMessage
    ensures r.loggedIn ==> r.error == ""
  {
    if email == "" || password == "" then FormResult(FillAllMessage, false) else FormResult("", true)
  }

  /** The emptiness check comes first: empty fields are reported even when the passwords also differ. */
  lemma EmptinessBeforeMismatch(password: string, confirm: string)
    requires password != confirm
    ensures CheckSignup("", password, confirm).error == FillAllMessage
  {
  }

  /** Fields are checked with `=== ''`: non-empty white-space-only fields pass both screens. */
  lemma BlankFieldsPass(email: string, password: string)
    requires email != "" && password != ""
    requires AllWhitespace(email) && AllWhitespace(password)
    ensures CheckSignup(email, password, password) == FormResult("", true)
    ensures CheckLogin(email, password) == FormResult("", true)
  {
  }

  /** A sign-up that passes would also pass the log-in check with the same email and password. */
  lemma SignupImpliesLogin(email: string, password: string, confirm: string)
    requires CheckSignup(email, password, confirm).loggedIn
    ensures CheckLogin(email, password).loggedIn
  {
  }
}
