/** The password-reset request form of
    frontend/src/app/auth/forgot-password/page.js. */
module ForgotPasswordPage {
  import opened Wrappers
  import opened Js
  import opened AuthContext

  const EnterEmail: string := "Please enter your email address."
  const ResetEmailFailed: string := "Failed to send password reset email. Please try again."

  /** The only check: the e-mail must not be empty. */
  function ResetValidation(email: string): (r: Option<string>)
    ensures r.Some? <==> email == ""
    ensures r.Some? ==> r.value == EnterEmail
  {
    if email == "" then Some(EnterEmail) else None
  }

  class ForgotPasswordForm {
    var email: string
    var formError: string
    var success: bool
    const auth: AuthProvider

    constructor (auth: AuthProvider)
      ensures email == "" && formError == "" && !success && this.auth == auth
    {
      email := "";
      formError := "";
      success := false;
      this.auth := auth;
    }

    /** `handleResetPassword`: both cells reset, an empty e-mail reported
        without calling the provider, then success or the failure message.
        The e-mail field is never written. */
    method HandleResetPassword(origin: string, outcome: Outcome) returns (call: Option<ProviderCall>)
      modifies this`formError, this`success, auth`error
      ensures email == old(email)
      ensures email == "" ==>
        formError == EnterEmail && !success && call.None? && auth.error == old(auth.error)
      ensures email != "" ==>
        && call == Some(ResetCall(email, origin + ResetPasswordPath))
        && auth.error == ErrorAfter(outcome, PasswordResetFailed)
      ensures email != "" && outcome.Succeeded? ==> success && formError == ""
      ensures email != "" && outcome.Threw? ==> !success && formError == MessageOr(outcome.err, ResetEmailFailed)
    {
      formError := "";
      success := false;
      var check := ResetValidation(email);
      if check.Some? {
        formError := check.value;
        return None;
      }
      var c, result := auth.ResetPassword(email, origin, outcome);
      call := Some(c);
      match result
      case Succeeded =>
        success := true;
      case Threw(err) =>
        formError := MessageOr(err, ResetEmailFailed);
    }
  }
}
