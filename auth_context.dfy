/** `AuthProvider` of frontend/src/context/AuthContext.js: the user, session,
    loading and error state of the application, the Authorization default
    header of the shared HTTP client, and the operations that change them.
    Each call into the identity provider is one atomic step whose outcome is
    a parameter. */
module AuthContext {
  import opened Wrappers
  import opened Js
  import opened Identity
  import opened HttpClient

  /** A request to the identity provider, with the arguments it carries. */
  datatype ProviderCall =
    | SignUpCall(email: string, password: string, metadata: map<string, string>, emailRedirectTo: string)
    | SignInCall(email: string, password: string)
    | OAuthCall(provider: string, redirectTo: string)
    | ResetCall(email: string, redirectTo: string)
    | UpdateUserCall(password: string)
    | SignOutCall

  const CallbackPath: string := "/auth/callback"
  const ResetPasswordPath: string := "/auth/reset-password"

  const SignUpFailed: string := "Sign up failed"
  const SignInFailed: string := "Sign in failed"
  const GoogleSignInFailed: string := "Google sign in failed"
  const PasswordResetFailed: string := "Password reset failed"
  const PasswordUpdateFailed: string := "Password update failed"
  const SignOutFailed: string := "Sign out failed"

  /** The `error` cell after an operation that first clears it: cleared on
      success, the thrown message or the operation's own fallback on
      failure. */
  function ErrorAfter(outcome: Outcome, fallback: string): (r: Option<string>)
    ensures r.None? <==> outcome.Succeeded?
    ensures outcome.Threw? ==> r == Some(MessageOr(outcome.err, fallback))
    ensures fallback != "" && r.Some? ==> r.value != ""
  {
    if outcome.Threw? then Some(MessageOr(outcome.err, fallback)) else None
  }

  /** `session?.user || null`. */
  function UserOf(session: Option<Session>): (r: Option<User>)
    ensures session.None? ==> r.None?
    ensures session.Some? ==> r == session.value.user
  {
    if session.Some? then session.value.user else None
  }

  /** The Authorization default header agrees with the session: the bearer
      text of its token when there is a session, absent when there is
      none. */
  predicate InStep(common: map<string, string>, session: Option<Session>)
  {
    if session.Some? then AuthHeader in common && common[AuthHeader] == BearerText(session.value.accessToken)
    else AuthHeader !in common
  }

  /** The default headers after an auth event: set or deleted so that they
      are in step with the new session, every other header kept. */
  function HeadersAfterChange(common: map<string, string>, session: Option<Session>): (r: map<string, string>)
    ensures InStep(r, session)
    ensures forall k :: k != AuthHeader ==> (k in r <==> k in common) && (k in r ==> r[k] == common[k])
  {
    if session.Some? then common[AuthHeader := BearerText(session.value.accessToken)]
    else common - {AuthHeader}
  }

  /** Whatever the headers were, two auth events leave them as the second
      one alone would. */
  lemma {:induction false} LastEventDecides(common: map<string, string>, s1: Option<Session>, s2: Option<Session>)
    ensures HeadersAfterChange(HeadersAfterChange(common, s1), s2) == HeadersAfterChange(common, s2)
  {
    var a := HeadersAfterChange(HeadersAfterChange(common, s1), s2);
    var b := HeadersAfterChange(common, s2);
    assert a.Keys == b.Keys;
  }

  /** The two places that build an Authorization header agree whenever the
      token is truthy: the default header set on an auth event and the one
      the request interceptor attaches. */
  lemma ContextAgreesWithInterceptor(common: map<string, string>, requestHeaders: map<string, string>, s: Session)
    requires Truthy(s.accessToken)
    ensures AttachToken(requestHeaders, LookupReturned(Some(s)))[AuthHeader]
         == HeadersAfterChange(common, Some(s))[AuthHeader]
  {
  }

  /** With an empty or absent token they do not: the event still sets a
      default header, which the interceptor leaves in place. */
  lemma FalsyTokenStillSetsDefault(common: map<string, string>, s: Session)
    requires !Truthy(s.accessToken)
    ensures HeadersAfterChange(common, Some(s))[AuthHeader] in {"Bearer ", "Bearer undefined"}
    ensures RequestToken(LookupReturned(Some(s))).None?
  {
    if s.accessToken.Some? {
      assert "Bearer " + s.accessToken.value == "Bearer ";
    }
  }

  class AuthProvider {
    var user: Option<User>
    var session: Option<Session>
    var loading: bool
    var error: Option<string>
    /** Whether the auth-change listener is registered. */
    var subscribed: bool
    /** The paths passed to `router.push`, in order. */
    var navigations: seq<string>
    const defaults: HeaderDefaults

    predicate HeaderInStep()
      reads this, defaults
    {
      InStep(defaults.common, session)
    }

    /** `isAuthenticated`: `!!user`. */
    predicate IsAuthenticated()
      reads this
    {
      user.Some?
    }

    /** The initial state: no user or session, loading, no error. */
    constructor (defaults: HeaderDefaults)
      ensures user.None? && session.None? && loading && error.None?
      ensures !subscribed && navigations == [] && this.defaults == defaults
    {
      user := None;
      session := None;
      loading := true;
      error := None;
      subscribed := false;
      navigations := [];
      this.defaults := defaults;
    }

    /** `initAuth` with the session the provider reports: the session is
        stored, the user taken from it when there is one, and the header set
        only when the token is truthy, exactly as the request interceptor
        attaches it; then loading ends and the listener is registered. */
    method InitAuth(initial: Option<Session>)
      modifies this, defaults
      ensures session == initial
      ensures initial.Some? ==> user == initial.value.user
      ensures initial.None? ==> user == old(user)
      ensures defaults.common == AttachToken(old(defaults.common), LookupReturned(initial))
      ensures !loading && subscribed
      ensures error == old(error) && navigations == old(navigations)
    {
      loading := true;
      session := initial;
      if initial.Some? {
        user := initial.value.user;
        var token := initial.value.accessToken;
        if Truthy(token) {
          defaults.common := defaults.common[AuthHeader := "Bearer " + token.value];
        }
      }
      loading := false;
      subscribed := true;
    }

    /** The auth-change listener: session and user follow the event, and the
        default header is brought in step with the new session. */
    method OnAuthStateChange(s: Option<Session>)
      requires subscribed
      modifies this`session, this`user, defaults
      ensures session == s && user == UserOf(s)
      ensures defaults.common == HeadersAfterChange(old(defaults.common), s)
      ensures HeaderInStep()
      ensures IsAuthenticated() <==> s.Some? && s.value.user.Some?
    {
      session := s;
      user := UserOf(s);
      if s.Some? {
        defaults.common := defaults.common[AuthHeader := BearerText(s.value.accessToken)];
      } else {
        defaults.common := defaults.common - {AuthHeader};
      }
    }

    /** `signUp`: clears the error, asks the provider to register the user
        with the confirmation link pointing at the callback page, and on
        failure records the message and rethrows (`result` is the outcome
        the caller sees). */
    method SignUp(email: string, password: string, metadata: map<string, string>, origin: string, outcome: Outcome)
      returns (call: ProviderCall, result: Outcome)
      modifies this`error
      ensures call == SignUpCall(email, password, metadata, origin + CallbackPath)
      ensures error == ErrorAfter(outcome, SignUpFailed)
      ensures result == outcome
    {
      error := None;
      call := SignUpCall(email, password, metadata, origin + CallbackPath);
      if outcome.Threw? {
        error := Some(MessageOr(outcome.err, SignUpFailed));
      }
      result := outcome;
    }

    method SignIn(email: string, password: string, outcome: Outcome)
      returns (call: ProviderCall, result: Outcome)
      modifies this`error
      ensures call == SignInCall(email, password)
      ensures error == ErrorAfter(outcome, SignInFailed)
      ensures result == outcome
    {
      error := None;
      call := SignInCall(email, password);
      if outcome.Threw? {
        error := Some(MessageOr(outcome.err, SignInFailed));
      }
      result := outcome;
    }

    method SignInWithGoogle(origin: string, outcome: Outcome)
      returns (call: ProviderCall, result: Outcome)
      modifies this`error
      ensures call == OAuthCall("google", origin + CallbackPath)
      ensures error == ErrorAfter(outcome, GoogleSignInFailed)
      ensures result == outcome
    {
      error := None;
      call := OAuthCall("google", origin + CallbackPath);
      if outcome.Threw? {
        error := Some(MessageOr(outcome.err, GoogleSignInFailed));
      }
      result := outcome;
    }

    method ResetPassword(email: string, origin: string, outcome: Outcome)
      returns (call: ProviderCall, result: Outcome)
      modifies this`error
      ensures call == ResetCall(email, origin + ResetPasswordPath)
      ensures error == ErrorAfter(outcome, PasswordResetFailed)
      ensures result == outcome
    {
      error := None;
      call := ResetCall(email, origin + ResetPasswordPath);
      if outcome.Threw? {
        error := Some(MessageOr(outcome.err, PasswordResetFailed));
      }
      result := outcome;
    }

    method UpdatePassword(newPassword: string, outcome: Outcome)
      returns (call: ProviderCall, result: Outcome)
      modifies this`error
      ensures call == UpdateUserCall(newPassword)
      ensures error == ErrorAfter(outcome, PasswordUpdateFailed)
      ensures result == outcome
    {
      error := None;
      call := UpdateUserCall(newPassword);
      if outcome.Threw? {
        error := Some(MessageOr(outcome.err, PasswordUpdateFailed));
      }
      result := outcome;
    }

    /** `signOut`: on success the default header is deleted and the router
        goes to '/'; on failure only the error is recorded and nothing is
        rethrown. The error is not cleared beforehand. */
    method SignOut(outcome: Outcome) returns (call: ProviderCall)
      modifies this`error, this`navigations, defaults
      ensures call == SignOutCall
      ensures outcome.Succeeded? ==>
        && defaults.common == old(defaults.common) - {AuthHeader}
        && navigations == old(navigations) + ["/"]
        && error == old(error)
      ensures outcome.Threw? ==>
        && defaults.common == old(defaults.common)
        && navigations == old(navigations)
        && error == Some(MessageOr(outcome.err, SignOutFailed))
    {
      call := SignOutCall;
      match outcome
      case Succeeded =>
        defaults.common := defaults.common - {AuthHeader};
        navigations := navigations + ["/"];
      case Threw(err) =>
        error := Some(MessageOr(err, SignOutFailed));
    }
  }
}
