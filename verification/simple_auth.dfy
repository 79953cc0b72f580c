/** `SimpleAuth`: the sign-up and sign-in pipelines. Each step's failure
    stops the pipeline, and every exception is caught and reported as a
    failed reply. The service works on one request; the database, the
    session store, the identity provider, `uuid4()`, the clock and the hash
    are parameters. */
module SimpleAuth {
  import opened Wrappers
  import opened Http
  import opened Replies
  import opened Fingerprint
  import opened DeviceInfo
  import opened SessionStore
  import opened SessionSchema
  import opened SessionController
  import opened Database
  import UserController
  import DeviceController
  import DeviceSchema
  import AuthController

  /** The state the pipelines change. */
  datatype World = World(db: Db, store: Store)

  /** The request the service was built with, the id `uuid4()` draws for a
      new session, the clock, and the hash. */
  datatype Env = Env(req: Request, now: int, freshId: string, sha256: Sha256)

  /** What a successful pipeline reports. */
  datatype Payload = SessionAndDevice(session: SessionDict, device: DeviceController.DeviceData) | Notice(text: string)

  const SignInLater := "Failed to sign in! Please try again later."
  const SignInOk := "Sign in successful"
  const SignUpNotice := "Sign up successful! Kindly check your email for verification."
  const SignUpFailed := "Failed to sign up! Please try again later."
  const BadCredentials := "Failed to sign in! Either email or password is incorrect.Verify your credentials and try again."
  const SignInRetry := "Failed to sign in! Please try again later. Verify your credentials and try again by confirming your email."
  const NoClient := "'NoneType' object has no attribute 'host'"

  /** `update_user`: get-or-create the user; `None` on failure. */
  function UpdateUser(w: World, uuid: string, name: Option<string>, email: Option<string>): (r: (Option<UserRow>, World))
    ensures r.1.store == w.store
    ensures r.0.Some? <==> UserController.CreateUser(w.db, name, email, None, Some(uuid)).0.Ok?
    ensures r.0.Some? ==> r.0.value in r.1.db.users && r.0.value.email == email.value
    ensures r.0.None? ==> r.1 == w
    ensures |r.1.db.users| <= |w.db.users| + 1 && r.1.db.devices == w.db.devices && r.1.db.health == w.db.health
  {
    var (reply, db) := UserController.CreateUser(w.db, name, email, None, Some(uuid));
    match reply
    case Err(_) => (None, w.(db := db))
    case Ok(_, row) => (Some(row), w.(db := db))
  }

  /** `update_device`: records the request's device for the user. A request
      without a client raises here, before the controller is built. */
  function UpdateDevice(w: World, env: Env, userId: int): (r: (Result<Option<DeviceController.DeviceData>, string>, World))
    ensures r.1.store == w.store && r.1.db.users == w.db.users && r.1.db.health == w.db.health
    ensures r.0.Failure? <==> env.req.client.None?
    ensures r.0.Success? && r.0.value.Some? <==>
      (env.req.client.Some? && DeviceSchema.ValidateIp(env.req.client.value).Success? && w.db.health == Up
       && Header(env.req, "user-agent").Some? && Header(env.req, "accept-language").Some?
       && HasUser(w.db.users, userId))
    ensures r.0.Success? && r.0.value.Some? ==>
      && r.0.value.value.ip == env.req.client.value
      && r.1.db.devices == w.db.devices + [DeviceRow(|w.db.devices| + 1, r.0.value.value.userAgent,
                                                      r.0.value.value.acceptLanguage, env.req.client.value, userId)]
    ensures !(r.0.Success? && r.0.value.Some?) ==> r.1 == w
  {
    match env.req.client
    case None => (Failure(NoClient), w)
    case Some(host) =>
      var (reply, db) := DeviceController.CreateDevice(w.db, Header(env.req, "user-agent"),
                                                       Header(env.req, "accept-language"), Some(host), Some(userId));
      match reply
      case Err(_) => (Success(None), w.(db := db))
      case Ok(_, data) => (Success(Some(data)), w.(db := db))
  }

  /** `generate_session`: issues and saves a session; `None` on failure. */
  function GenerateSession(w: World, env: Env, userId: int): (r: (Option<SessionDict>, World))
    ensures r.1.db == w.db
    ensures r.0.Some? <==> env.freshId != "" && w.store.up
    ensures r.0.None? ==> r.1 == w
    ensures r.0.Some? ==>
      && r.0.value == SessionDict(env.freshId, Generate(ExtractForAuth(Some(env.req)), env.sha256), userId)
      && r.1.store == CreateSession(Some(env.req), IntId(userId), env.freshId, w.store, env.now, env.sha256).store
  {
    var c := CreateSession(Some(env.req), IntId(userId), env.freshId, w.store, env.now, env.sha256);
    match c.result
    case Failure(_) => (None, w)
    case Success(session) => (Some(session), w.(store := c.store))
  }

  /** The provider user behind a reply, when the reply carries one. */
  function ReplyUser(reply: AuthController.IdpReply): Option<AuthController.AuthUser> {
    if reply.data.Some? then reply.data.value.user else None
  }

  /** Get-or-create has a row to give for the provider's user: one already
      on file under its address, or a new one whose `user_uuid`, the
      provider's id, clashes with no stored row. */
  predicate UserObtainable(db: Db, user: AuthController.AuthUser)
    requires user.email.Some?
  {
    (exists i :: 0 <= i < |db.users| && db.users[i].email == user.email.value) || !UuidTaken(db.users, Some(user.id))
  }

  /** Whether a request's device can be recorded for a user. */
  predicate DeviceRecordable(w: World, env: Env) {
    && env.req.client.Some? && DeviceSchema.ValidateIp(env.req.client.value).Success?
    && Header(env.req, "user-agent").Some? && Header(env.req, "accept-language").Some?
    && w.db.health == Up
  }

  /** The database holds a user row for the session's user with the
      provider's address, and a device row for it from this request. */
  predicate HasRecordsFor(db: Db, userId: int, email: string, ip: string) {
    && (exists i :: 0 <= i < |db.users| && db.users[i].id == userId && db.users[i].email == email)
    && (exists j :: 0 <= j < |db.devices| && db.devices[j].userId == userId && db.devices[j].ip == ip)
  }

  /** `auth_process`: user, then device, then session. */
  function AuthProcess(w: World, env: Env, reply: AuthController.IdpReply): (r: (Reply<Payload>, World))
    ensures r.0.Ok? <==>
      ReplyUser(reply).Some? && ReplyUser(reply).value.email.Some? && UserObtainable(w.db, ReplyUser(reply).value)
      && DeviceRecordable(w, env) && env.freshId != "" && w.store.up
    ensures r.0.Err? ==> r.0.message == SignInLater && r.1.store == w.store
    ensures r.0.Ok? ==> r.0.message == SignInOk && r.0.data.SessionAndDevice?
    ensures r.0.Ok? ==>
      var s := r.0.data.session;
      && s.sessionId == env.freshId
      && s.fingerprint == Generate(ExtractForAuth(Some(env.req)), env.sha256)
      && HasRecordsFor(r.1.db, s.userId, ReplyUser(reply).value.email.value, env.req.client.value)
      && r.1.store == CreateSession(Some(env.req), IntId(s.userId), env.freshId, w.store, env.now, env.sha256).store
  {
    match ReplyUser(reply)
    case None => (Err(SignInLater), w)
    case Some(user) =>
      var (created, w1) := UpdateUser(w, user.id, user.email, user.email);
      match created
      case None => (Err(SignInLater), w1)
      case Some(row) =>
        var (device, w2) := UpdateDevice(w1, env, row.id);
        match device
        case Failure(_) => (Err(SignInLater), w2)
        case Success(None) => (Err(SignInLater), w2)
        case Success(Some(data)) =>
          assert w2.db.devices[|w1.db.devices|].userId == row.id;
          var (session, w3) := GenerateSession(w2, env, row.id);
          match session
          case None => (Err(SignInLater), w3)
          case Some(s) => (Ok(SignInOk, SessionAndDevice(s, data)), w3)
  }

  /** A provider id already stored as another address's `user_uuid` makes
      both pipelines fail and leave the world as it was: the new row clashes
      on the unique column and is rolled back. */
  lemma ReusedProviderIdRefused(w: World, env: Env, reply: AuthController.IdpReply)
    requires ReplyUser(reply).Some? && ReplyUser(reply).value.email.Some?
    requires forall i :: 0 <= i < |w.db.users| ==> w.db.users[i].email != ReplyUser(reply).value.email.value
    requires UuidTaken(w.db.users, Some(ReplyUser(reply).value.id))
    ensures AuthProcess(w, env, reply) == (Err(SignInLater), w)
    ensures SignUpProcess(w, env, reply) == (Err(SignInLater), w)
  {
  }

  /** `sign_up_process`: user, then device; no session is issued. */
  function SignUpProcess(w: World, env: Env, reply: AuthController.IdpReply): (r: (Reply<Payload>, World))
    ensures r.1.store == w.store
    ensures r.0.Ok? <==>
      ReplyUser(reply).Some? && ReplyUser(reply).value.email.Some? && UserObtainable(w.db, ReplyUser(reply).value)
      && DeviceRecordable(w, env)
    ensures r.0.Ok? ==> r.0 == Ok(SignInOk, Notice(SignUpNotice))
    ensures r.0.Err? ==> r.0.message == SignInLater
  {
    match ReplyUser(reply)
    case None => (Err(SignInLater), w)
    case Some(user) =>
      var (created, w1) := UpdateUser(w, user.id, user.email, user.email);
      match created
      case None => (Err(SignInLater), w1)
      case Some(row) =>
        var (device, w2) := UpdateDevice(w1, env, row.id);
        match device
        case Failure(_) => (Err(SignInLater), w2)
        case Success(None) => (Err(SignInLater), w2)
        case Success(Some(_)) => (Ok(SignInOk, Notice(SignUpNotice)), w2)
  }

  /** The replies the provider client builds: a failed call carries no data. */
  predicate WellFormedReply(reply: AuthController.IdpReply) {
    !reply.success ==> reply.data.None?
  }

  /** `sign_up`: a missing argument fails at once; any reply, failed or
      not, goes on to `sign_up_process`. */
  function SignUp(w: World, env: Env, email: Option<string>, password: Option<string>,
                  provider: AuthController.Credentialed): (r: (Reply<Payload>, World))
    ensures r.1.store == w.store
    ensures email.None? || password.None? ==> r == (Err(SignUpFailed), w)
    ensures email.Some? && password.Some? ==> r == SignUpProcess(w, env, provider(email.value, password.value))
  {
    match AuthController.SignUp(email, password, provider)
    case None => (Err(SignUpFailed), w)
    case Some(reply) => SignUpProcess(w, env, reply)
  }

  /** Sign-up succeeds only on a successful provider reply, when the
      provider's replies are of the client's shape. */
  lemma SignUpNeedsProviderSuccess(w: World, env: Env, email: Option<string>, password: Option<string>,
                                   provider: AuthController.Credentialed)
    requires email.Some? && password.Some? ==> WellFormedReply(provider(email.value, password.value))
    ensures SignUp(w, env, email, password, provider).0.Ok? ==>
      email.Some? && password.Some? && provider(email.value, password.value).success
  {
  }

  /** `sign_in`: only a successful provider reply reaches `auth_process`;
      when the controller filters the reply out, indexing its `None` raises
      and the error is caught. */
  function SignIn(w: World, env: Env, email: Option<string>, password: Option<string>,
                  provider: AuthController.Credentialed): (r: (Reply<Payload>, World))
    ensures r.0.Ok? <==> (email.Some? && password.Some? && provider(email.value, password.value).success
      && AuthProcess(w, env, provider(email.value, password.value)).0.Ok?)
    ensures r.0.Ok? ==> r == AuthProcess(w, env, provider(email.value, password.value))
    ensures AuthController.SignIn(email, password, provider).None? ==> r == (Err(SignInRetry), w)
  {
    match AuthController.SignIn(email, password, provider)
    case None => (Err(SignInRetry), w)
    case Some(reply) =>
      if !reply.success then (Err(BadCredentials), w)
      else AuthProcess(w, env, reply)
  }

  /** No session without its records: whenever sign-in changes the session
      store, the database holds the user's row and this request's device
      row, and the store holds exactly the issued session besides what it
      held. */
  lemma SessionOnlyAfterRecords(w: World, env: Env, email: Option<string>, password: Option<string>,
                                provider: AuthController.Credentialed)
    ensures var r := SignIn(w, env, email, password, provider);
      r.1.store != w.store ==>
        && r.0.Ok?
        && var s := r.0.data.session;
           HasRecordsFor(r.1.db, s.userId, ReplyUser(provider(email.value, password.value)).value.email.value,
                         env.req.client.value)
           && env.freshId in r.1.store.entries
           && r.1.store.entries[env.freshId].expiry == env.now + Ttl
  {
  }
}
