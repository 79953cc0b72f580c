/** Issuance meets verification: a session saved by the auth service is
    accepted by the session service's gate for a later request from the
    same device, until it expires. The issuing side's fingerprint is taken
    to be the same function as the verifying side's. */
module Lifecycle {
  import opened Wrappers
  import opened Http
  import opened JsonValue
  import opened Fingerprint
  import opened DeviceInfo
  import opened SessionStore
  import opened SessionSchema
  import opened SessionController
  import opened Gateway
  import SimpleAuth
  import AuthController

  /** Two requests present the same device headers. */
  predicate SameDevice(a: Request, b: Request) {
    && Header(a, "user-agent") == Header(b, "user-agent")
    && Header(a, "accept-language") == Header(b, "accept-language")
    && Header(a, "x-forwarded-for") == Header(b, "x-forwarded-for")
    && a.client == b.client
  }

  /** A session issued from `issue` lets a later request from the same device
      through within 60 s, unless its forwarded-for header was empty. */
  lemma IssuedSessionVerifies(issue: Request, userId: IdInput, freshId: string, store: Store, now: int,
                              sha256: Sha256, visit: Request, later: int, authUrl: string)
    requires CreateSession(Some(issue), userId, freshId, store, now, sha256).result.Success?
    requires SameDevice(issue, visit) && visit.client.Some?
    requires Header(issue, "x-forwarded-for") != Some("")
    requires visit.path !in ExcludedPaths && SessionCookie in visit.cookies && visit.cookies[SessionCookie] == freshId
    requires now <= later < now + Ttl
    ensures Dispatch(visit, CreateSession(Some(issue), userId, freshId, store, now, sha256).store, later, sha256, authUrl)
      == Forward
  {
    CopiesAgreeUnlessEmptyForwarded(issue);
    assert ExtractForSession(Some(visit)) == ExtractForSession(Some(issue));
  }

  /** The same session is refused once 60 s have passed since it was saved. */
  lemma IssuedSessionExpires(issue: Request, userId: IdInput, freshId: string, store: Store, now: int,
                             sha256: Sha256, visit: Request, later: int, authUrl: string)
    requires CreateSession(Some(issue), userId, freshId, store, now, sha256).result.Success?
    requires visit.path !in ExcludedPaths && SessionCookie in visit.cookies && visit.cookies[SessionCookie] == freshId
    requires later >= now + Ttl
    ensures Dispatch(visit, CreateSession(Some(issue), userId, freshId, store, now, sha256).store, later, sha256, authUrl)
      == Deny(authUrl)
  {
    var saved := CreateSession(Some(issue), userId, freshId, store, now, sha256).store;
    assert !Live(saved, later, freshId);
    DeadSessionDenied(visit, saved, later, sha256, authUrl);
  }

  /** With an empty forwarded-for header the auth service fingerprints the
      peer address and the session service fingerprints the empty string,
      so the issued session is let through only if SHA-256 collides on two
      different inputs. */
  lemma EmptyForwardedForOnlyPassesOnCollision(issue: Request, userId: IdInput, freshId: string, store: Store,
                                               now: int, sha256: Sha256, later: int, authUrl: string)
    requires CreateSession(Some(issue), userId, freshId, store, now, sha256).result.Success?
    requires Header(issue, "x-forwarded-for") == Some("") && issue.client.Some? && issue.client.value != ""
    requires issue.path !in ExcludedPaths && SessionCookie in issue.cookies && issue.cookies[SessionCookie] == freshId
    requires now <= later < now + Ttl
    ensures Dispatch(issue, CreateSession(Some(issue), userId, freshId, store, now, sha256).store, later, sha256, authUrl)
      == Forward
      ==> (var ua := HeaderOr(issue, "user-agent", Unknown);
           var al := HeaderOr(issue, "accept-language", "");
           var x := Utf8(Canonical("", ua, al));
           var y := Utf8(Canonical(issue.client.value, ua, al));
           x != y && sha256(x) == sha256(y))
  {
    var ua := HeaderOr(issue, "user-agent", Unknown);
    var al := HeaderOr(issue, "accept-language", "");
    var x := Utf8(Canonical("", ua, al));
    var y := Utf8(Canonical(issue.client.value, ua, al));
    assert Generate(ExtractForSession(Some(issue)), sha256) == sha256(x);
    assert Generate(ExtractForAuth(Some(issue)), sha256) == sha256(y);
    if x == y {
      Utf8Injective(Canonical("", ua, al), Canonical(issue.client.value, ua, al));
    }
  }

  /** End to end: after a successful sign-in, the session cookie it issued
      admits a later request from the same device within 60 s. */
  lemma SignedInDeviceAdmitted(w: SimpleAuth.World, env: SimpleAuth.Env, email: Option<string>,
                               password: Option<string>, provider: AuthController.Credentialed,
                               visit: Request, later: int, authUrl: string)
    requires SameDevice(env.req, visit) && Header(env.req, "x-forwarded-for") != Some("")
    requires visit.path !in ExcludedPaths && SessionCookie in visit.cookies && visit.cookies[SessionCookie] == env.freshId
    requires env.now <= later < env.now + Ttl
    ensures var r := SimpleAuth.SignIn(w, env, email, password, provider);
      r.0.Ok? ==> Dispatch(visit, r.1.store, later, env.sha256, authUrl) == Forward
  {
    var r := SimpleAuth.SignIn(w, env, email, password, provider);
    if r.0.Ok? {
      var s := r.0.data.session;
      IssuedSessionVerifies(env.req, IntId(s.userId), env.freshId, w.store, env.now, env.sha256, visit, later, authUrl);
    }
  }
}
