/** `VerifyDeviceInfoMiddleware.dispatch`: the per-request gate of the
    session service. It forwards the request or redirects it to the
    authentication entry point, and never writes to the session store. */
module Gateway {
  import opened Wrappers
  import opened Http
  import opened JsonValue
  import opened Fingerprint
  import opened DeviceInfo
  import opened SessionStore

  /** Paths exempt from verification, compared by exact equality. */
  const ExcludedPaths: seq<string> :=
    ["/docs", "/redoc", "/openapi.json", "/health", "/health/", "/auth", "/", "/verified"]

  /** The status code every denial carries. */
  const RedirectStatus: int := 302

  datatype Response = Forward | Redirect(location: string, status: int)

  /** The one response used for every denial. */
  function Deny(authUrl: string): Response {
    Redirect(authUrl, RedirectStatus)
  }

  /** The fingerprint of the request as it arrives now. */
  function CurrentFingerprint(req: Request, sha256: Sha256): Digest {
    Generate(ExtractForSession(Some(req)), sha256)
  }

  /** The checks on what the store returned: `None` and any string deny,
      a dictionary forwards only when its "fingerprint" equals `fp`, and
      any other JSON value has no `.get`, raises, and denies. */
  function Judge(fetched: Json, fp: Digest, authUrl: string): Response {
    match fetched
    case JObj(fields) =>
      if FieldOrNull(fields, "fingerprint") == JStr(fp) then Forward else Deny(authUrl)
    case _ => Deny(authUrl)
  }

  /** Python `d.get(key)`, with JSON null standing for `None`. */
  function FieldOrNull(fields: map<string, Json>, key: string): Json {
    if key in fields then fields[key] else JNull
  }

  /** The cookie, lookup and fingerprint steps, for a non-exempt path. A
      store that raises denies, as the catch-all does. */
  function CheckSession(req: Request, store: Store, now: int, sha256: Sha256, authUrl: string): Response {
    match Cookie(req, SessionCookie)
    case None => Deny(authUrl)
    case Some(sid) =>
      var fp := CurrentFingerprint(req, sha256);
      match GetSession(store, now, sid)
      case Failure(_) => Deny(authUrl)
      case Success(fetched) => Judge(fetched, fp, authUrl)
  }

  /** `dispatch` as written. Its first statement logs `request.client.host`,
      which raises on a request without a client before the exemption is
      looked at; the catch-all turns that into a denial. */
  function Dispatch(req: Request, store: Store, now: int, sha256: Sha256, authUrl: string): (r: Response)
    ensures r == Forward || r == Deny(authUrl)
    ensures req.client.Some? && req.path in ExcludedPaths ==> r == Forward
    ensures req.client.None? ==> r == Deny(authUrl)
    ensures req.path !in ExcludedPaths && SessionCookie !in req.cookies ==> r == Deny(authUrl)
  {
    if req.client.None? then Deny(authUrl)
    else DispatchIntended(req, store, now, sha256, authUrl)
  }

  /** `dispatch` with the exemption checked before anything dereferences
      the client, as the exemption list is meant to work. */
  function DispatchIntended(req: Request, store: Store, now: int, sha256: Sha256, authUrl: string): (r: Response)
    ensures r == Forward || r == Deny(authUrl)
    ensures req.path in ExcludedPaths ==> r == Forward
    ensures req.path !in ExcludedPaths && SessionCookie !in req.cookies ==> r == Deny(authUrl)
    ensures req.path !in ExcludedPaths && !store.up ==> r == Deny(authUrl)
  {
    if req.path in ExcludedPaths then Forward
    else CheckSession(req, store, now, sha256, authUrl)
  }

  /** The request is admissible: exempt, or carrying a cookie that names a
      live stored dictionary whose "fingerprint" is this request's. Stated
      on the raw store entries, independently of `get_session`. */
  ghost predicate Admissible(req: Request, store: Store, now: int, sha256: Sha256) {
    && req.client.Some?
    && (|| req.path in ExcludedPaths
        || (&& SessionCookie in req.cookies
            && store.up
            && req.cookies[SessionCookie] in store.entries
            && now < store.entries[req.cookies[SessionCookie]].expiry
            && store.entries[req.cookies[SessionCookie]].data.JObj?
            && "fingerprint" in store.entries[req.cookies[SessionCookie]].data.fields
            && store.entries[req.cookies[SessionCookie]].data.fields["fingerprint"]
               == JStr(CurrentFingerprint(req, sha256))))
  }

  /** Fail-closed: a request is forwarded if and only if it is admissible. */
  lemma ForwardIffAdmissible(req: Request, store: Store, now: int, sha256: Sha256, authUrl: string)
    ensures Dispatch(req, store, now, sha256, authUrl) == Forward <==> Admissible(req, store, now, sha256)
  {
  }

  /** A cookie naming a missing, deleted or expired session is denied. */
  lemma DeadSessionDenied(req: Request, store: Store, now: int, sha256: Sha256, authUrl: string)
    requires req.path !in ExcludedPaths && SessionCookie in req.cookies
    requires !Live(store, now, req.cookies[SessionCookie])
    ensures Dispatch(req, store, now, sha256, authUrl) == Deny(authUrl)
  {
  }

  /** A live value that is not a dictionary (null, the sentinel or any
      other string, a number, a list) is denied. */
  lemma NonDictionaryDenied(req: Request, store: Store, now: int, sha256: Sha256, authUrl: string)
    requires req.path !in ExcludedPaths && SessionCookie in req.cookies
    requires Live(store, now, req.cookies[SessionCookie])
    requires !store.entries[req.cookies[SessionCookie]].data.JObj?
    ensures Dispatch(req, store, now, sha256, authUrl) == Deny(authUrl)
  {
  }

  /** A stored dictionary whose fingerprint is missing or differs from this
      request's is denied. */
  lemma MismatchDenied(req: Request, store: Store, now: int, sha256: Sha256, authUrl: string)
    requires req.path !in ExcludedPaths && SessionCookie in req.cookies
    requires Live(store, now, req.cookies[SessionCookie])
    requires store.entries[req.cookies[SessionCookie]].data.JObj?
    requires FieldOrNull(store.entries[req.cookies[SessionCookie]].data.fields, "fingerprint")
      != JStr(CurrentFingerprint(req, sha256))
    ensures Dispatch(req, store, now, sha256, authUrl) == Deny(authUrl)
  {
  }

  /** The gate is read-only and looks at one key: two stores that answer the
      same for the cookie's session give the same verdict. */
  lemma VerdictDependsOnlyOnLookup(req: Request, s1: Store, s2: Store, now: int, sha256: Sha256, authUrl: string)
    requires SessionCookie in req.cookies
    requires GetSession(s1, now, req.cookies[SessionCookie]) == GetSession(s2, now, req.cookies[SessionCookie])
    ensures Dispatch(req, s1, now, sha256, authUrl) == Dispatch(req, s2, now, sha256, authUrl)
  {
  }

  /** As written, an exempt path is redirected when the request has no
      client, because the log line raises before the exemption check. */
  lemma ExemptPathNeedsClient(store: Store, now: int, sha256: Sha256, authUrl: string)
    ensures Dispatch(Request("/health", map[], map[], None), store, now, sha256, authUrl) == Deny(authUrl)
    ensures DispatchIntended(Request("/health", map[], map[], None), store, now, sha256, authUrl) == Forward
  {
  }

  /** The two versions differ only on requests without a client. */
  lemma DispatchAgreesWithIntended(req: Request, store: Store, now: int, sha256: Sha256, authUrl: string)
    requires req.client.Some?
    ensures Dispatch(req, store, now, sha256, authUrl) == DispatchIntended(req, store, now, sha256, authUrl)
  {
  }
}
