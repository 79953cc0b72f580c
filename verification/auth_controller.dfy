/** `SimpleAuthController`: guards against missing arguments and filters
    the identity provider's replies. The provider itself is an oracle: a
    function from the call's arguments to its reply. */
module AuthController {
  import opened Wrappers

  /** The provider's user: its id and the `email` entry of its metadata. */
  datatype AuthUser = AuthUser(id: string, email: Option<string>)

  /** The provider's response object; its user may be missing. */
  datatype AuthResponse = AuthResponse(user: Option<AuthUser>)

  /** The client's `{"success", "error", "data"}` reply. A failed call never
      carries data. */
  datatype IdpReply = IdpReply(success: bool, error: Option<string>, data: Option<AuthResponse>)

  type Credentialed = (string, string) -> IdpReply

  /** `sign_up`: only a missing argument stops the call; every reply,
      failed ones included, is passed on. */
  function SignUp(email: Option<string>, password: Option<string>, provider: Credentialed): (r: Option<IdpReply>)
    ensures r.Some? <==> email.Some? && password.Some?
    ensures r.Some? ==> r.value == provider(email.value, password.value)
  {
    if email.None? || password.None? then None
    else Some(provider(email.value, password.value))
  }

  /** `sign_in`: only a successful reply is passed on. */
  function SignIn(email: Option<string>, password: Option<string>, provider: Credentialed): (r: Option<IdpReply>)
    ensures r.Some? <==> email.Some? && password.Some? && provider(email.value, password.value).success
    ensures r.Some? ==> r.value == provider(email.value, password.value) && r.value.success
  {
    if email.None? || password.None? then None
    else
      var reply := provider(email.value, password.value);
      if reply.success then Some(reply) else None
  }

  /** `sign_out`: the provider's reply when it succeeded. */
  function SignOut(reply: IdpReply): (r: Option<IdpReply>)
    ensures r.Some? <==> reply.success
    ensures r.Some? ==> r.value == reply
  {
    if reply.success then Some(reply) else None
  }

  /** `forgot_password`: a missing address stops the call. */
  function ForgotPassword(email: Option<string>, provider: string -> IdpReply): (r: Option<IdpReply>)
    ensures r.Some? <==> email.Some? && provider(email.value).success
    ensures r.Some? ==> r.value == provider(email.value) && r.value.success
  {
    if email.None? then None
    else
      var reply := provider(email.value);
      if reply.success then Some(reply) else None
  }

  /** `reset_password`: a missing password stops the call. */
  function ResetPassword(password: Option<string>, provider: string -> IdpReply): (r: Option<IdpReply>)
    ensures r.Some? <==> password.Some? && provider(password.value).success
    ensures r.Some? ==> r.value == provider(password.value) && r.value.success
  {
    if password.None? then None
    else
      var reply := provider(password.value);
      if reply.success then Some(reply) else None
  }

  /** A missing argument short-circuits before the provider is consulted:
      the result is the same whatever the provider would answer. */
  lemma MissingArgumentSkipsProvider(email: Option<string>, password: Option<string>, p: Credentialed, q: Credentialed,
                                     f: string -> IdpReply, g: string -> IdpReply)
    ensures email.None? || password.None? ==>
      SignUp(email, password, p) == SignUp(email, password, q) == None
      && SignIn(email, password, p) == SignIn(email, password, q) == None
    ensures email.None? ==> ForgotPassword(email, f) == ForgotPassword(email, g) == None
    ensures password.None? ==> ResetPassword(password, f) == ResetPassword(password, g) == None
  {
  }

  /** Empty strings are not missing: they reach the provider. */
  lemma EmptyIsNotMissing(p: Credentialed, f: string -> IdpReply)
    ensures SignUp(Some(""), Some(""), p) == Some(p("", ""))
    ensures p("", "").success ==> SignIn(Some(""), Some(""), p) == Some(p("", ""))
    ensures f("").success ==> ForgotPassword(Some(""), f) == Some(f(""))
  {
  }
}
