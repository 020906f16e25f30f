/** The sign-up form of frontend/src/app/auth/signup/page.js: its four
    fields, the `formError` and `success` cells, and the submit handlers. */
module SignupPage {
  import opened Wrappers
  import opened Js
  import opened AuthContext

  const FillOutFields: string := "Please fill out all fields."
  const PasswordsDiffer: string := "Passwords do not match."
  const PasswordTooShort: string := "Password must be at least 8 characters."
  const SignupFailed: string := "Signup failed. Please try again."
  const GoogleSignupFailed: string := "Google signup failed."
  const MinPasswordLength: nat := 8

  predicate AllFilled(name: string, email: string, password: string, confirmPassword: string)
  {
    name != "" && email != "" && password != "" && confirmPassword != ""
  }

  /** The checks of `handleSignup`, first failing one reported: an empty
      field, then differing passwords, then a password shorter than eight
      characters. */
  function SignupValidation(name: string, email: string, password: string, confirmPassword: string): (r: Option<string>)
    ensures r == Some(FillOutFields) <==> !AllFilled(name, email, password, confirmPassword)
    ensures r == Some(PasswordsDiffer) <==>
      AllFilled(name, email, password, confirmPassword) && password != confirmPassword
    ensures r == Some(PasswordTooShort) <==>
      AllFilled(name, email, password, confirmPassword) && password == confirmPassword && |password| < MinPasswordLength
    ensures r.None? <==>
      AllFilled(name, email, password, confirmPassword) && password == confirmPassword && |password| >= MinPasswordLength
  {
    assert FillOutFields[1] != PasswordsDiffer[1] && FillOutFields[1] != PasswordTooShort[1];
    assert PasswordsDiffer[9] != PasswordTooShort[9];
    if !AllFilled(name, email, password, confirmPassword) then Some(FillOutFields)
    else if password != confirmPassword then Some(PasswordsDiffer)
    else if |password| < MinPasswordLength then Some(PasswordTooShort)
    else None
  }

  class SignupForm {
    var name: string
    var email: string
    var password: string
    var confirmPassword: string
    var formError: string
    var success: bool
    const auth: AuthProvider

    constructor (auth: AuthProvider)
      ensures name == "" && email == "" && password == "" && confirmPassword == ""
      ensures formError == "" && !success && this.auth == auth
    {
      name := "";
      email := "";
      password := "";
      confirmPassword := "";
      formError := "";
      success := false;
      this.auth := auth;
    }

    /** `handleSignup`. Both cells are reset first. A failed check reports
        its message and the provider is not called. Otherwise the provider
        is asked to register the e-mail and password with `{name}` as
        metadata; success clears every field, failure reports the message
        and keeps them. */
    method HandleSignup(origin: string, outcome: Outcome) returns (call: Option<ProviderCall>)
      modifies this, auth`error
      ensures var check := SignupValidation(old(name), old(email), old(password), old(confirmPassword));
        && (check.Some? ==>
              && formError == check.value && !success && call.None?
              && name == old(name) && email == old(email)
              && password == old(password) && confirmPassword == old(confirmPassword)
              && auth.error == old(auth.error))
        && (check.None? ==>
              && call == Some(SignUpCall(old(email), old(password), map["name" := old(name)], origin + CallbackPath))
              && auth.error == ErrorAfter(outcome, SignUpFailed))
        && (check.None? && outcome.Succeeded? ==>
              && success && formError == ""
              && name == "" && email == "" && password == "" && confirmPassword == "")
        && (check.None? && outcome.Threw? ==>
              && !success && formError == MessageOr(outcome.err, SignupFailed)
              && name == old(name) && email == old(email)
              && password == old(password) && confirmPassword == old(confirmPassword))
    {
      formError := "";
      success := false;
      var check := SignupValidation(name, email, password, confirmPassword);
      if check.Some? {
        formError := check.value;
        return None;
      }
      var c, result := auth.SignUp(email, password, map["name" := name], origin, outcome);
      call := Some(c);
      match result
      case Succeeded =>
        success := true;
        name := "";
        email := "";
        password := "";
        confirmPassword := "";
      case Threw(err) =>
        formError := MessageOr(err, SignupFailed);
    }

    /** `handleGoogleSignup`: starts the OAuth sign-in and reports a failure;
        unlike the e-mail handler it resets nothing first. */
    method HandleGoogleSignup(origin: string, outcome: Outcome) returns (call: ProviderCall)
      modifies this`formError, auth`error
      ensures call == OAuthCall("google", origin + CallbackPath)
      ensures auth.error == ErrorAfter(outcome, GoogleSignInFailed)
      ensures outcome.Succeeded? ==> formError == old(formError)
      ensures outcome.Threw? ==> formError == MessageOr(outcome.err, GoogleSignupFailed)
    {
      var result;
      call, result := auth.SignInWithGoogle(origin, outcome);
      if result.Threw? {
        formError := MessageOr(result.err, GoogleSignupFailed);
      }
    }
  }
}
