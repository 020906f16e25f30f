/** The shared HTTP client of frontend/src/services/axios/instance.js: its
    default headers, the request interceptor that attaches the session's
    access token, and the response interceptor that signs out on a 401. */
module HttpClient {
  import opened Wrappers
  import opened Js
  import opened Identity

  const AuthHeader: string := "Authorization"

  /** `axiosInstance.defaults.headers.common`, sent with every request and
      updated in place by the auth context. */
  class HeaderDefaults {
    var common: map<string, string>

    constructor (initial: map<string, string>)
      ensures common == initial
    {
      common := initial;
    }
  }

  /** The per-request configuration the request interceptor receives. */
  class RequestConfig {
    var headers: map<string, string>

    constructor (headers: map<string, string>)
      ensures this.headers == headers
    {
      this.headers := headers;
    }
  }

  /** How `supabase.auth.getSession()` ends inside the interceptor. */
  datatype SessionLookup = LookupThrew | LookupReturned(session: Option<Session>)

  /** The token the interceptor attaches, if any: `session?.access_token`
      when it is truthy, nothing when there is none or the lookup threw. */
  function RequestToken(lookup: SessionLookup): (r: Option<string>)
    ensures r.Some? <==> lookup.LookupReturned? && Truthy(TokenOf(lookup.session))
    ensures r.Some? ==> r == TokenOf(lookup.session) && r.value != ""
  {
    if lookup.LookupReturned? && Truthy(TokenOf(lookup.session)) then TokenOf(lookup.session) else None
  }

  /** The request headers after the interceptor: Authorization set to the
      bearer token exactly when there is a token, every other header as it
      was. */
  function AttachToken(headers: map<string, string>, lookup: SessionLookup): (r: map<string, string>)
    ensures RequestToken(lookup).Some? ==>
      && r.Keys == headers.Keys + {AuthHeader}
      && r[AuthHeader] == "Bearer " + RequestToken(lookup).value
    ensures RequestToken(lookup).None? ==> r == headers
    ensures forall k :: k in headers && k != AuthHeader ==> k in r && r[k] == headers[k]
  {
    var token := RequestToken(lookup);
    if token.Some? then headers[AuthHeader := "Bearer " + token.value] else headers
  }

  /** Attaching twice is attaching once. */
  lemma AttachTokenIdempotent(headers: map<string, string>, lookup: SessionLookup)
    ensures AttachToken(AttachToken(headers, lookup), lookup) == AttachToken(headers, lookup)
  {
  }

  /** The request interceptor: updates the config's headers in place and
      hands the same config on. */
  method InterceptRequest(config: RequestConfig, lookup: SessionLookup) returns (r: RequestConfig)
    modifies config
    ensures r == config
    ensures config.headers == AttachToken(old(config.headers), lookup)
  {
    var token := RequestToken(lookup);
    if token.Some? {
      config.headers := config.headers[AuthHeader := "Bearer " + token.value];
    }
    r := config;
  }

  datatype HttpResponse = HttpResponse(status: int, data: JsValue)

  /** A failed request; `status` is `None` when no response arrived. */
  datatype HttpError = HttpError(status: Option<int>, message: string)

  /** The success handler hands every response on unchanged. */
  function OnFulfilled(response: HttpResponse): (r: HttpResponse)
    ensures r == response
  {
    response
  }

  const AuthPagePath: string := "/auth"

  /** The browser window; `location` is the current page path. */
  class Window {
    var location: string

    constructor (location: string)
      ensures this.location == location
    {
      this.location := location;
    }
  }

  /** The identity client, recording the sign-out requests sent to it. */
  class IdentityClient {
    var signOutRequests: nat

    constructor ()
      ensures signOutRequests == 0
    {
      signOutRequests := 0;
    }
  }

  /** The error handler. A 401 sends one sign-out request and replaces the
      page with the auth page, whether or not the sign-out throws; any other
      error touches nothing. The returned error is the one the promise is
      rejected with, always the error received. */
  method OnRejected(error: HttpError, identity: IdentityClient, window: Window, signOut: Outcome)
    returns (rejection: HttpError)
    modifies identity, window
    ensures rejection == error
    ensures error.status == Some(401) ==>
      identity.signOutRequests == old(identity.signOutRequests) + 1 && window.location == AuthPagePath
    ensures error.status != Some(401) ==>
      identity.signOutRequests == old(identity.signOutRequests) && window.location == old(window.location)
  {
    if error.status == Some(401) {
      identity.signOutRequests := identity.signOutRequests + 1;
      match signOut
      case Succeeded =>
        window.location := AuthPagePath;
      case Threw(_) =>
        window.location := AuthPagePath;
    }
    rejection := error;
  }
}
