/** The parts of an inbound HTTP request that the core reads. */
module Http {
  import opened Wrappers

  /** `headers` is keyed by lower-case header name, as Starlette looks
      names up case-insensitively; `client` is the peer host, absent
      when the server did not record one. */
  datatype Request = Request(
    path: string,
    cookies: map<string, string>,
    headers: map<string, string>,
    client: Option<string>)

  /** The cookie that carries the session id. */
  const SessionCookie := "session_id"

  function Header(req: Request, name: string): (v: Option<string>)
    ensures v.Some? <==> name in req.headers
    ensures v.Some? ==> v.value == req.headers[name]
  {
    if name in req.headers then Some(req.headers[name]) else None
  }

  function Cookie(req: Request, name: string): (v: Option<string>)
    ensures v.Some? <==> name in req.cookies
    ensures v.Some? ==> v.value == req.cookies[name]
  {
    if name in req.cookies then Some(req.cookies[name]) else None
  }
}
