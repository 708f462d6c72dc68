/** The application-wide authentication context (`AuthProvider`): the
    in-memory profile and loading flag layered over the session guard. */
module AuthContext {
  import opened Wrappers
  import opened Http
  import opened Session

  /** Storage, the context's `user` state and its `isLoading` state. */
  datatype Context = Context(storage: Storage, user: Option<User>, isLoading: bool)

  /** The provider's state before its start-up effect has run. */
  function Mount(st: Storage): Context {
    Context(st, None, true)
  }

  /** The start-up effect `initAuth`: restore the profile when the guard says
      the stored session is valid, and finish loading in every case. */
  function InitAuth(c: Context, nowMs: int, codec: Codec): (r: Context)
    ensures !r.isLoading
    ensures r.storage == IsAuthenticated(c.storage, nowMs, codec).storage
    ensures IsAuthenticated(c.storage, nowMs, codec).authenticated ==>
              r.user.Some? && r.user == GetUser(c.storage, codec)
    ensures !IsAuthenticated(c.storage, nowMs, codec).authenticated ==> r.user == c.user
  {
    var checked := IsAuthenticated(c.storage, nowMs, codec);
    if checked.authenticated then Context(checked.storage, GetUser(checked.storage, codec), false)
    else c.(storage := checked.storage, isLoading := false)
  }

  /** Starting from a fresh mount, the profile is restored exactly when the
      stored session is valid. */
  lemma StartupRestoresOnlyValidSession(st: Storage, nowMs: int, codec: Codec)
    ensures var r := InitAuth(Mount(st), nowMs, codec);
            && !r.isLoading
            && (r.user.Some? <==> IsAuthenticated(st, nowMs, codec).authenticated)
  {
  }

  /** The context's derived `isAuthenticated`: `!!user && isAuthenticated()`.
      The guard (and its cleanup) only runs when a profile is in memory. */
  function ContextAuthenticated(c: Context, nowMs: int, codec: Codec): (r: Checked)
    ensures r.authenticated <==> c.user.Some? && IsAuthenticated(c.storage, nowMs, codec).authenticated
    ensures c.user.None? ==> r.storage == c.storage
    ensures c.user.Some? ==> r.storage == IsAuthenticated(c.storage, nowMs, codec).storage
  {
    if c.user.None? then Checked(false, c.storage) else IsAuthenticated(c.storage, nowMs, codec)
  }

  /** Evaluating the derived flag with a profile in memory and an expired
      stored token clears the stored session. */
  lemma EvaluatingFlagClearsExpiredSession(c: Context, nowMs: int, codec: Codec)
    requires c.user.Some? && HasToken(c.storage) && GetUser(c.storage, codec).Some?
    requires IsTokenExpired(c.storage[TokenKey], nowMs, codec)
    ensures ContextAuthenticated(c, nowMs, codec) == Checked(false, Logout(c.storage))
  {
  }

  /** The context's `login`: on success the profile becomes the response's
      `user_details`; on failure the error is rethrown and nothing changes. */
  function ContextLogin(c: Context, reply: LoginReply, codec: Codec): (r: (Result<(), Thrown>, Context))
    ensures r.0.Success? <==> reply.LoginAccepted?
    ensures reply.LoginAccepted? ==> r.1.user == Some(reply.data.user)
    ensures !reply.LoginAccepted? ==> r.1 == c && r.0 == Failure(Login(c.storage, reply, codec).result.error)
    ensures r.1.isLoading == c.isLoading
  {
    var outcome := Login(c.storage, reply, codec);
    match outcome.result
    case Success(data) => (Success(()), c.(storage := outcome.storage, user := Some(data.user)))
    case Failure(e) => (Failure(e), c)
  }

  /** The context's `logout`: clear storage and drop the profile. */
  function ContextLogout(c: Context): Context {
    c.(storage := Logout(c.storage), user := None)
  }

  /** After logout the derived flag is false, and evaluating it changes nothing. */
  lemma LogoutThenUnauthenticated(c: Context, nowMs: int, codec: Codec)
    ensures var after := ContextLogout(c);
            && ContextAuthenticated(after, nowMs, codec) == Checked(false, after.storage)
            && TokenKey !in after.storage && UserKey !in after.storage
  {
  }

  /** A successful login with a live token makes the derived flag true. */
  lemma LoginThenContextAuthenticated(c: Context, data: LoginData, nowMs: int, codec: Codec)
    requires WellBehaved(codec)
    requires data.token != "" && !IsTokenExpired(data.token, nowMs, codec)
    ensures var after := ContextLogin(c, LoginAccepted(data), codec).1;
            ContextAuthenticated(after, nowMs, codec) == Checked(true, after.storage)
  {
    LoginThenAuthenticated(c.storage, data, nowMs, codec);
  }
}
