/** `extract_info` in its two copies: the session service's (used when a
    request is verified) and the auth service's (used when a session is
    issued). Both build the dictionary `generate_fingerprint` reads. */
module DeviceInfo {
  import opened Wrappers
  import opened Http
  import opened Fingerprint

  /** The dictionary returned when extraction raises. */
  const Fallback: Info :=
    map[UserAgentKey := Unknown, AcceptLanguageKey := "", ForwardedForKey := Unknown]

  function MakeInfo(userAgent: string, acceptLanguage: string, forwardedFor: string): Info {
    map[UserAgentKey := userAgent, AcceptLanguageKey := acceptLanguage, ForwardedForKey := forwardedFor]
  }

  /** Python `request.client.host if request.client else "Unknown"`. */
  function PeerOrUnknown(req: Request): string {
    if req.client.Some? then req.client.value else Unknown
  }

  /** Python `headers.get(name, default)`. */
  function HeaderOr(req: Request, name: string, default: string): string {
    if name in req.headers then req.headers[name] else default
  }

  /** The session service's copy. A missing request stands for the only
      way the body can raise (attribute access on `None`), which yields
      the fallback dictionary. The forwarded-for header is used whenever it
      is present, even when it is empty. */
  function ExtractForSession(req: Option<Request>): (info: Info)
    ensures info.Keys == {UserAgentKey, AcceptLanguageKey, ForwardedForKey}
    ensures req.None? ==> info == Fallback
    ensures req.Some? ==>
      && info[UserAgentKey] == HeaderOr(req.value, "user-agent", Unknown)
      && info[AcceptLanguageKey] == HeaderOr(req.value, "accept-language", "")
      && ("x-forwarded-for" in req.value.headers ==> info[ForwardedForKey] == req.value.headers["x-forwarded-for"])
      && ("x-forwarded-for" !in req.value.headers ==> info[ForwardedForKey] == PeerOrUnknown(req.value))
  {
    match req
    case None => Fallback
    case Some(r) =>
      var forwarded := Header(r, "x-forwarded-for");
      var ip := if forwarded.None? then PeerOrUnknown(r) else forwarded.value;
      MakeInfo(HeaderOr(r, "user-agent", Unknown), HeaderOr(r, "accept-language", ""), ip)
  }

  /** The auth service's copy: a falsy forwarded-for header (absent or
      empty) falls back to the peer address. */
  function ExtractForAuth(req: Option<Request>): (info: Info)
    ensures info.Keys == {UserAgentKey, AcceptLanguageKey, ForwardedForKey}
    ensures req.None? ==> info == Fallback
    ensures req.Some? ==>
      && info[UserAgentKey] == HeaderOr(req.value, "user-agent", Unknown)
      && info[AcceptLanguageKey] == HeaderOr(req.value, "accept-language", "")
      && (HeaderOr(req.value, "x-forwarded-for", "") != "" ==> info[ForwardedForKey] == req.value.headers["x-forwarded-for"])
      && (HeaderOr(req.value, "x-forwarded-for", "") == "" ==> info[ForwardedForKey] == PeerOrUnknown(req.value))
  {
    match req
    case None => Fallback
    case Some(r) =>
      var forwarded := HeaderOr(r, "x-forwarded-for", "");
      var ip := if forwarded == "" then PeerOrUnknown(r) else forwarded;
      MakeInfo(HeaderOr(r, "user-agent", Unknown), HeaderOr(r, "accept-language", ""), ip)
  }

  /** The two copies agree exactly when the forwarded-for header is not the
      empty string, or when it is and the peer fallback is empty too. */
  lemma CopiesAgreeUnlessEmptyForwarded(req: Request)
    ensures ExtractForSession(Some(req)) == ExtractForAuth(Some(req))
      <==> (Header(req, "x-forwarded-for") != Some("") || PeerOrUnknown(req) == "")
  {
    var s, a := ExtractForSession(Some(req)), ExtractForAuth(Some(req));
    if Header(req, "x-forwarded-for") == Some("") && PeerOrUnknown(req) != "" {
      assert s[ForwardedForKey] != a[ForwardedForKey];
    }
  }

  /** Every value of the session copy is a header value verbatim, the peer
      host, or one of the fixed defaults: nothing is trimmed or folded. */
  lemma SessionValuesPassThrough(req: Request, key: string)
    requires key in ExtractForSession(Some(req))
    ensures var v := ExtractForSession(Some(req))[key];
      || (exists name :: name in req.headers && req.headers[name] == v)
      || req.client == Some(v)
      || v == Unknown || v == ""
  {
    var info := ExtractForSession(Some(req));
    if key == UserAgentKey && "user-agent" in req.headers {
      assert req.headers["user-agent"] == info[key];
    } else if key == AcceptLanguageKey && "accept-language" in req.headers {
      assert req.headers["accept-language"] == info[key];
    } else if key == ForwardedForKey && "x-forwarded-for" in req.headers {
      assert req.headers["x-forwarded-for"] == info[key];
    }
  }
}
