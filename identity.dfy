/** The identity provider's user and session objects, as the frontend reads
    them. */
module Identity {
  import opened Wrappers
  import opened Js

  datatype User = User(id: string, email: string)

  /** A session; `accessToken` is `None` when the session carries none. */
  datatype Session = Session(user: Option<User>, accessToken: Option<string>)

  /** `session?.access_token` of a session that may be missing. */
  function TokenOf(session: Option<Session>): (r: Option<string>)
    ensures session.None? ==> r.None?
    ensures session.Some? ==> r == session.value.accessToken
  {
    if session.Some? then session.value.accessToken else None
  }

  /** The Authorization header value built by `Bearer ${token}`. */
  function BearerText(token: Option<string>): (r: string)
    ensures token.Some? ==> r == "Bearer " + token.value
    ensures token.None? ==> r == "Bearer undefined"
  {
    "Bearer " + TemplateText(token)
  }
}
