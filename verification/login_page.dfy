/** The login page (`Login`): submit handling, the message shown for a
    failed login, and the redirect to the dashboard. */
module LoginPage {
  import opened Wrappers
  import opened Http
  import opened Text
  import opened Session
  import opened AuthContext

  const DashboardPath: string := "/dashboard"
  const DefaultLoginError: string := "Login failed. Please check your credentials and try again."
  const UnableToConnect: string := "Unable to connect"
  const InvalidCredentials: string := "Invalid credentials"
  const DemoModeMessage: string :=
    "Unable to connect to server. Using demo mode with credentials: admin@binIQ.com / Admin@123"
  const DemoCredentialsMessage: string := "Invalid credentials. Use admin@binIQ.com / Admin@123 for demo."

  datatype Navigation = Navigation(path: string, replace: bool)

  /** The page's `isLoading` and `error` states, and the navigation it requested. */
  datatype Page = Page(isLoading: bool, error: string, navigation: Option<Navigation>)

  /** The message `handleSubmit` shows for a caught value. */
  function LoginErrorMessage(err: Thrown): string {
    match err
    case NotAnError => DefaultLoginError
    case ErrorObject(m) =>
      if Contains(m, UnableToConnect) then DemoModeMessage
      else if Contains(m, InvalidCredentials) then DemoCredentialsMessage
      else m
  }

  /** The classification: connection trouble first, then bad credentials, then
      the error's own message; only a non-`Error` gets the default text. */
  lemma LoginErrorMessageCases(err: Thrown)
    ensures err.NotAnError? ==> LoginErrorMessage(err) == DefaultLoginError
    ensures err.ErrorObject? && Contains(err.message, UnableToConnect) ==>
              LoginErrorMessage(err) == DemoModeMessage
    ensures err.ErrorObject? && !Contains(err.message, UnableToConnect) && Contains(err.message, InvalidCredentials) ==>
              LoginErrorMessage(err) == DemoCredentialsMessage
    ensures err.ErrorObject? && !Contains(err.message, UnableToConnect) && !Contains(err.message, InvalidCredentials) ==>
              LoginErrorMessage(err) == err.message
  {
  }

  /** A message naming both problems is classified as a connection problem. */
  lemma ConnectionTakesPriority()
    ensures LoginErrorMessage(ErrorObject("Unable to connect: Invalid credentials")) == DemoModeMessage
  {
    PrefixIsContained("Unable to connect: Invalid credentials", UnableToConnect);
  }

  /** The first half of `handleSubmit`: loading on, error cleared. */
  function StartSubmit(p: Page): (r: Page)
    ensures r.isLoading && r.error == "" && r.navigation == p.navigation
  {
    p.(isLoading := true, error := "")
  }

  /** The second half: navigate on success, show the classified message on
      failure, and turn loading off either way (`finally`). */
  function FinishSubmit(p: Page, outcome: Result<(), Thrown>): (r: Page)
    ensures !r.isLoading
    ensures outcome.Success? ==> r.navigation == Some(Navigation(DashboardPath, true)) && r.error == p.error
    ensures outcome.Failure? ==> r.navigation == p.navigation && r.error == LoginErrorMessage(outcome.error)
  {
    match outcome
    case Success(_) => p.(isLoading := false, navigation := Some(Navigation(DashboardPath, true)))
    case Failure(e) => p.(isLoading := false, error := LoginErrorMessage(e))
  }

  /** `handleSubmit` end to end over the authentication context. */
  function HandleSubmit(p: Page, c: Context, reply: LoginReply, codec: Codec): (r: (Page, Context)) {
    var login := ContextLogin(c, reply, codec);
    (FinishSubmit(StartSubmit(p), login.0), login.1)
  }

  /** A submit ends with loading off. Success navigates to the dashboard with
      no error shown. Failure leaves the context as it was and shows the
      classified message of the `Error` the guard threw; a refusal without a
      server message shows the guard's "Login failed". */
  lemma HandleSubmitOutcomes(p: Page, c: Context, reply: LoginReply, codec: Codec)
    ensures var (q, c') := HandleSubmit(p, c, reply, codec);
            && !q.isLoading
            && (reply.LoginAccepted? ==>
                  && q.navigation == Some(Navigation(DashboardPath, true))
                  && q.error == ""
                  && c'.user == Some(reply.data.user))
            && (!reply.LoginAccepted? ==>
                  && q.navigation == p.navigation
                  && c' == c
                  && Login(c.storage, reply, codec).result.error.ErrorObject?
                  && q.error == LoginErrorMessage(Login(c.storage, reply, codec).result.error))
            && (reply == LoginRefused(None) ==> q.error == LoginFailedMessage)
  {
  }

  /** The page's redirect effect: an already authenticated visitor is sent
      to the dashboard, replacing the login entry. */
  function RedirectIfAuthenticated(p: Page, isAuthenticated: bool): (r: Page)
    ensures isAuthenticated ==> r.navigation == Some(Navigation(DashboardPath, true))
    ensures !isAuthenticated ==> r == p
  {
    if isAuthenticated then p.(navigation := Some(Navigation(DashboardPath, true))) else p
  }
}
