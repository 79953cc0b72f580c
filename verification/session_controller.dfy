/** `SessionController`: issues sessions on the auth-service side
    (generate, validate, save, report) and deletes them on sign-out.
    The auth service's fingerprint module is not part of this model; it is
    taken to be the session service's `generate_fingerprint`. */
module SessionController {
  import opened Wrappers
  import opened Http
  import opened JsonValue
  import opened Fingerprint
  import opened DeviceInfo
  import opened SessionStore
  import opened SessionSchema

  /** What `generate_session` reports on success. */
  datatype Generated = Generated(fingerprint: Digest, sessionId: string, info: Info)

  /** The outcome of `create_session` and the store after it. */
  datatype Creation = Creation(result: Result<SessionDict, string>, store: Store)

  const InvalidRequest := "Invalid request, Error Creating Session"
  const CreateFailed := "Error creating session! Please try again later."

  /** The record saved under the session id: exactly these two keys. */
  function StoredRecord(fingerprint: string, userId: int): Json {
    JObj(map["fingerprint" := JStr(fingerprint), "user_id" := JInt(userId)])
  }

  /** `generate_session`: `freshId` is the `uuid4()` string drawn for this
      call. A missing request (falsy) is refused after extraction. */
  function GenerateSession(req: Option<Request>, freshId: string, sha256: Sha256): (r: Result<Generated, string>)
    ensures r.Success? <==> req.Some?
    ensures r.Failure? ==> r.error == InvalidRequest
    ensures r.Success? ==> r.value.sessionId == freshId
    ensures r.Success? ==> r.value.info == ExtractForAuth(req)
    ensures r.Success? ==> r.value.fingerprint == Generate(r.value.info, sha256)
  {
    var info := ExtractForAuth(req);
    if req.None? then Failure(InvalidRequest)
    else Success(Generated(Generate(info, sha256), freshId, info))
  }

  /** `create_session`: every failure (generation, schema, save) is caught
      and reported the same way, and nothing is left saved. */
  function CreateSession(req: Option<Request>, userId: IdInput, freshId: string, store: Store, now: int, sha256: Sha256)
    : (c: Creation)
    ensures c.result.Success? <==> req.Some? && freshId != "" && CoerceUserId(userId).Some? && store.up
    ensures c.result.Failure? ==> c.result.error == CreateFailed && c.store == store
    ensures c.result.Success? ==>
      && c.result.value.sessionId == freshId
      && c.result.value.userId == CoerceUserId(userId).value
      && c.result.value.fingerprint == Generate(ExtractForAuth(req), sha256)
    ensures c.result.Success? ==>
      && c.store.up
      && freshId in c.store.entries
      && c.store.entries[freshId] == Entry(StoredRecord(c.result.value.fingerprint, c.result.value.userId), now + Ttl)
      && (forall k :: k != freshId ==>
            (k in c.store.entries <==> k in store.entries) && (k in store.entries ==> c.store.entries[k] == store.entries[k]))
  {
    match GenerateSession(req, freshId, sha256)
    case Failure(_) => Creation(Failure(CreateFailed), store)
    case Success(g) =>
      match Construct(Some(g.sessionId), Some(g.fingerprint), userId)
      case Failure(_) => Creation(Failure(CreateFailed), store)
      case Success(schema) =>
        match ValidateAll(schema)
        case Failure(_) => Creation(Failure(CreateFailed), store)
        case Success(session) =>
          match SetSession(store, now, session.sessionId, StoredRecord(session.fingerprint, session.userId))
          case Failure(_) => Creation(Failure(CreateFailed), store)
          case Success(saved) => Creation(Success(session), saved)
  }

  /** An empty session id means failure and no save. */
  lemma EmptyIdNeverSaved(req: Option<Request>, userId: IdInput, store: Store, now: int, sha256: Sha256)
    ensures CreateSession(req, userId, "", store, now, sha256) == Creation(Failure(CreateFailed), store)
  {
  }

  /** `delete_session`: deletes the cookie's session when there is one and
      the store answers; every error is swallowed and the method returns
      `None`, so only the store is observable. */
  function DeleteCookieSession(req: Option<Request>, store: Store): (s: Store)
    ensures s.up == store.up
    ensures req.Some? && SessionCookie in req.value.cookies && store.up ==>
      s.entries == store.entries - {req.value.cookies[SessionCookie]}
    ensures !(req.Some? && SessionCookie in req.value.cookies && store.up) ==> s == store
  {
    match req
    case None => store
    case Some(r) =>
      match Cookie(r, SessionCookie)
      case None => store
      case Some(sid) =>
        match SessionStore.DeleteSession(store, sid)
        case Failure(_) => store
        case Success(result) => result.0
  }
}
