/** The route gate (`ProtectedRoute`): what a protected page shows for the
    context's loading and authentication flags. */
module ProtectedRoute {
  import opened Session
  import opened AuthContext

  /** The three things the gate can render. */
  datatype View = LoadingPlaceholder | Redirect(to: string, replace: bool) | Children

  /** The gate's decision: loading wins, then a replacing redirect to the login
      page, and the protected children only when authenticated. */
  function Gate(isLoading: bool, isAuthenticated: bool): View {
    if isLoading then LoadingPlaceholder
    else if !isAuthenticated then Redirect(LoginPath, true)
    else Children
  }

  /** Each pair of flags has exactly one outcome, characterised both ways. */
  lemma GateOutcomes(isLoading: bool, isAuthenticated: bool)
    ensures Gate(isLoading, isAuthenticated) == LoadingPlaceholder <==> isLoading
    ensures Gate(isLoading, isAuthenticated) == Redirect(LoginPath, true) <==> !isLoading && !isAuthenticated
    ensures Gate(isLoading, isAuthenticated) == Children <==> !isLoading && isAuthenticated
    ensures Gate(isLoading, isAuthenticated).Redirect? ==> Gate(isLoading, isAuthenticated).to == LoginPath
  {
  }

  /** The gate over a live context: the flag is evaluated (with its cleanup),
      then the gate decides. */
  function GuardRoute(c: Context, nowMs: int, codec: Codec): (r: (View, Context))
    ensures r.0 == Children <==>
              !c.isLoading && c.user.Some? && IsAuthenticated(c.storage, nowMs, codec).authenticated
    ensures r.1.user == c.user && r.1.isLoading == c.isLoading
  {
    var checked := ContextAuthenticated(c, nowMs, codec);
    (Gate(c.isLoading, checked.authenticated), c.(storage := checked.storage))
  }

  /** After logout every protected route redirects to the login page. */
  lemma LoggedOutRoutesRedirect(c: Context, nowMs: int, codec: Codec)
    requires !c.isLoading
    ensures GuardRoute(ContextLogout(c), nowMs, codec).0 == Redirect(LoginPath, true)
  {
  }
}
