/** The session guard (`AuthService`): two slots of the browser's key-value
    storage hold the bearer token and the serialized admin profile. Login
    fills them, logout empties them, and the authentication check empties
    them lazily when the token's `exp` claim has passed. Storage, the clock,
    the network and the JSON/base64 decoders are parameters. */
module Session {
  import opened Wrappers
  import opened Http
  import opened Text

  const TokenKey: string := "biniq_admin_token"
  const UserKey: string := "biniq_admin_user"
  const LoginPath: string := "/login"
  const LoginFailedMessage: string := "Login failed"

  /** The browser's `localStorage`: string keys to string values. Keys other
      than the two slots belong to other code and must survive every transition. */
  type Storage = map<string, string>

  /** The parts of the admin profile the model looks at; the rest is opaque. */
  datatype User = User(id: string, fullName: string, email: string, role: int)

  /** What `JSON.parse(atob(segment)).exp` yields once `atob` has accepted the
      segment: `Undecodable` when decoding, parsing or reading `exp` throws;
      otherwise `exp` after JavaScript's numeric coercion in `<`, None when it
      is absent or coerces to NaN (every comparison with NaN is false). */
  datatype Payload = Undecodable | Claims(exp: Option<int>)

  /** The JSON and base64 machinery the guard relies on, left abstract. */
  datatype Codec = Codec(
    decodePayload: string -> Payload,
    parseUser: string -> Option<User>,
    stringifyUser: User -> string)

  /** `JSON.parse(JSON.stringify(u))` gives `u` back, and a serialized profile
      is never the (falsy) empty string. */
  ghost predicate WellBehaved(codec: Codec) {
    forall u :: codec.stringifyUser(u) != "" && codec.parseUser(codec.stringifyUser(u)) == Some(u)
  }

  /** `getToken()` is truthy: the slot exists and is not the empty string. */
  predicate HasToken(st: Storage) {
    TokenKey in st && st[TokenKey] != ""
  }

  /** `getUser()`: absent or empty slot gives null, otherwise the parsed profile
      (None when parsing fails or yields a falsy value). */
  function GetUser(st: Storage, codec: Codec): Option<User> {
    if UserKey !in st || st[UserKey] == "" then None else codec.parseUser(st[UserKey])
  }

  /** `logout()`: remove both slots. */
  function Logout(st: Storage): (r: Storage)
    ensures TokenKey !in r && UserKey !in r
    ensures forall k :: k in st && k != TokenKey && k != UserKey ==> k in r && r[k] == st[k]
    ensures r.Keys <= st.Keys
  {
    st - {TokenKey, UserKey}
  }

  /** Logging out is idempotent: a second call finds nothing left to remove. */
  lemma LogoutIdempotent(st: Storage)
    ensures Logout(Logout(st)) == Logout(st)
    ensures !HasToken(Logout(st))
  {
  }

  /** The argument `atob` receives: `token.split(".")[1]`, which is `undefined`
      (converted to the string "undefined") when the token has no dot. */
  function AtobArgument(token: string): string {
    var parts := Split(token, '.');
    if |parts| >= 2 then parts[1] else "undefined"
  }

  /** The characters the forgiving-base64 decoder behind `atob` skips. */
  predicate IsAsciiWhitespace(c: char) {
    c == '\t' || c == '\n' || c == '\U{000C}' || c == '\r' || c == ' '
  }

  /** The standard base64 alphabet (section 4 of RFC 4648); the URL-safe
      letters `-` and `_` (section 5) are not in it. */
  predicate IsBase64Char(c: char) {
    ('A' <= c <= 'Z') || ('a' <= c <= 'z') || ('0' <= c <= '9') || c == '+' || c == '/'
  }

  function StripAsciiWhitespace(s: string): (r: string)
    ensures forall c :: c in s && !IsAsciiWhitespace(c) ==> c in r
  {
    if s == [] then []
    else if IsAsciiWhitespace(s[0]) then StripAsciiWhitespace(s[1..])
    else [s[0]] + StripAsciiWhitespace(s[1..])
  }

  /** When the length is a multiple of four, one or two trailing `=` are dropped. */
  function DropPadding(s: string): (r: string)
    ensures forall c :: c in s && c != '=' ==> c in r
  {
    if |s| % 4 == 0 && |s| >= 2 && s[|s| - 2..] == "==" then
      assert s == s[..|s| - 2] + s[|s| - 2..];
      s[..|s| - 2]
    else if |s| % 4 == 0 && |s| >= 1 && s[|s| - 1] == '=' then
      assert s == s[..|s| - 1] + [s[|s| - 1]];
      s[..|s| - 1]
    else s
  }

  /** `atob(s)` does not throw: after dropping whitespace and padding, the
      length leaves no single dangling character and every character is in
      the standard alphabet. */
  predicate AtobAccepts(s: string) {
    var d := DropPadding(StripAsciiWhitespace(s));
    |d| % 4 != 1 && forall i :: 0 <= i < |d| ==> IsBase64Char(d[i])
  }

  /** `isTokenExpired(token)`, with the clock read as `nowMs` milliseconds:
      `exp < nowMs / 1000` is `exp * 1000 < nowMs` for an integer `exp`, and
      any throw while decoding counts as expired. */
  function IsTokenExpired(token: string, nowMs: int, codec: Codec): bool {
    var segment := AtobArgument(token);
    if !AtobAccepts(segment) then true
    else match codec.decodePayload(segment)
      case Undecodable => true
      case Claims(None) => false
      case Claims(Some(exp)) => exp * 1000 < nowMs
  }

  /** Fail-closed decoding: whatever `atob` rejects or the decoder cannot read
      is expired, for every clock reading. */
  lemma ExpiryFailsClosed(token: string, nowMs: int, codec: Codec)
    requires !AtobAccepts(AtobArgument(token)) || codec.decodePayload(AtobArgument(token)) == Undecodable
    ensures IsTokenExpired(token, nowMs, codec)
  {
  }

  /** A payload segment in the URL-safe alphabet, as JWTs are encoded, is
      rejected by `atob` and so treated as expired. */
  lemma UrlSafePayloadIsExpired(token: string, nowMs: int, codec: Codec)
    requires '-' in AtobArgument(token) || '_' in AtobArgument(token)
    ensures IsTokenExpired(token, nowMs, codec)
  {
    var s := AtobArgument(token);
    var d := DropPadding(StripAsciiWhitespace(s));
    if '-' in s {
      assert '-' in d;
      var i :| 0 <= i < |d| && d[i] == '-';
      assert !IsBase64Char(d[i]);
    } else {
      assert '_' in d;
      var i :| 0 <= i < |d| && d[i] == '_';
      assert !IsBase64Char(d[i]);
    }
  }

  /** A token without a dot hands `atob` the nine characters of "undefined",
      one past a multiple of four, so it is expired. */
  lemma DotlessTokenIsExpired(token: string, nowMs: int, codec: Codec)
    requires '.' !in token
    ensures IsTokenExpired(token, nowMs, codec)
  {
    SplitWithoutSeparator(token, '.');
    StripWithoutWhitespace("undefined");
  }

  /** Stripping whitespace from a string that has none changes nothing. */
  lemma {:induction false} StripWithoutWhitespace(s: string)
    requires forall i :: 0 <= i < |s| ==> !IsAsciiWhitespace(s[i])
    ensures StripAsciiWhitespace(s) == s
  {
    if s != [] {
      StripWithoutWhitespace(s[1..]);
    }
  }

  /** The expiry comparison is strict and whole-second exact: a token whose
      `exp` is the current second boundary is still valid, a later clock
      reading expires it, and a payload without `exp` never expires. */
  lemma ExpiryBoundary(token: string, exp: int, codec: Codec)
    requires AtobAccepts(AtobArgument(token))
    ensures codec.decodePayload(AtobArgument(token)) == Claims(Some(exp)) ==>
              !IsTokenExpired(token, exp * 1000, codec) && IsTokenExpired(token, exp * 1000 + 1, codec)
    ensures codec.decodePayload(AtobArgument(token)) == Claims(None) ==>
              forall nowMs :: !IsTokenExpired(token, nowMs, codec)
  {
  }

  /** The result of `isAuthenticated()` and the storage it leaves behind. */
  datatype Checked = Checked(authenticated: bool, storage: Storage)

  /** `isAuthenticated()`: both slots must be present; an expired token is
      cleaned up (both slots removed) before answering false. */
  function IsAuthenticated(st: Storage, nowMs: int, codec: Codec): (r: Checked)
    ensures r.authenticated <==>
              HasToken(st) && GetUser(st, codec).Some? && !IsTokenExpired(st[TokenKey], nowMs, codec)
    ensures !HasToken(st) || GetUser(st, codec).None? ==> r.storage == st
    ensures r.authenticated ==> r.storage == st
    ensures HasToken(st) && GetUser(st, codec).Some? && IsTokenExpired(st[TokenKey], nowMs, codec) ==>
              r.storage == Logout(st)
  {
    if !HasToken(st) || GetUser(st, codec).None? then Checked(false, st)
    else if IsTokenExpired(st[TokenKey], nowMs, codec) then Checked(false, Logout(st))
    else Checked(true, st)
  }

  /** Asking twice answers the same as asking once and leaves the same storage:
      the lazy cleanup does its work on the first call only. */
  lemma IsAuthenticatedStable(st: Storage, nowMs: int, codec: Codec)
    ensures var first := IsAuthenticated(st, nowMs, codec);
            IsAuthenticated(first.storage, nowMs, codec) == first
  {
  }

  /** After logout the guard answers false and touches nothing. */
  lemma LoggedOutIsUnauthenticated(st: Storage, nowMs: int, codec: Codec)
    ensures IsAuthenticated(Logout(st), nowMs, codec) == Checked(false, Logout(st))
  {
  }

  /** `getAuthHeaders()`. */
  function AuthHeaders(st: Storage): (h: map<string, string>)
    ensures !HasToken(st) ==> h == map[]
    ensures HasToken(st) ==> h.Keys == {"Authorization", "Content-Type"}
    ensures HasToken(st) ==> h["Authorization"] == "Bearer " + st[TokenKey]
    ensures HasToken(st) ==> h["Content-Type"] == "application/json"
  {
    if !HasToken(st) then map[]
    else map["Authorization" := "Bearer " + st[TokenKey], "Content-Type" := "application/json"]
  }

  /** What `makeAuthenticatedRequest` sent, the storage after it, where it
      pointed `window.location` (if anywhere), and what it returned. */
  datatype Request<P> = Request(headers: map<string, string>, storage: Storage,
                                location: Option<string>, reply: Reply<P>)

  /** `makeAuthenticatedRequest(url, options)`: caller headers are spread over
      the auth headers, and a 401 forces logout and a redirect to the login
      page before the response is handed back. A rejected `fetch` propagates
      without touching the session. */
  function AuthenticatedRequest<P>(st: Storage, callerHeaders: map<string, string>, reply: Reply<P>)
    : (r: Request<P>)
    ensures r.headers.Keys == AuthHeaders(st).Keys + callerHeaders.Keys
    ensures forall k :: k in callerHeaders ==> r.headers[k] == callerHeaders[k]
    ensures forall k :: k in AuthHeaders(st) && k !in callerHeaders ==> r.headers[k] == AuthHeaders(st)[k]
    ensures r.reply == reply
    ensures reply.Response? && reply.status == Unauthorized ==>
              r.storage == Logout(st) && r.location == Some(LoginPath)
    ensures !(reply.Response? && reply.status == Unauthorized) ==> r.storage == st && r.location == None
  {
    var headers := AuthHeaders(st) + callerHeaders;
    if reply.Response? && reply.status == Unauthorized then
      Request(headers, Logout(st), Some(LoginPath), reply)
    else
      Request(headers, st, None, reply)
  }

  /** A 401 leaves the guard answering false, whatever the request was. */
  lemma UnauthorizedEndsSession<P>(st: Storage, callerHeaders: map<string, string>, body: Body<P>,
                                   nowMs: int, codec: Codec)
    ensures var r := AuthenticatedRequest(st, callerHeaders, Response(Unauthorized, body));
            !IsAuthenticated(r.storage, nowMs, codec).authenticated
  {
  }

  /** The body of a successful login. */
  datatype LoginData = LoginData(token: string, user: User)

  /** What `fetch` to the login endpoint can produce. */
  datatype LoginReply =
    | LoginUnreachable(error: string)        // fetch rejected
    | LoginRefused(message: Option<string>)  // not ok; the body's `message`, if it parsed and had one
    | LoginUnreadable(error: string)         // ok, but reading the body threw
    | LoginAccepted(data: LoginData)         // ok, with token and user_details

  datatype LoginOutcome = LoginOutcome(result: Result<LoginData, Thrown>, storage: Storage)

  /** `login(credentials)`: persist token and profile on an ok response only;
      otherwise throw, leaving storage as it was. */
  function Login(st: Storage, reply: LoginReply, codec: Codec): (r: LoginOutcome)
    ensures r.result.Success? <==> reply.LoginAccepted?
    ensures r.result.Failure? ==> r.storage == st && r.result.error.ErrorObject?
    ensures reply.LoginRefused? ==> r.result == Failure(ErrorObject(OrElse(reply.message, LoginFailedMessage)))
    ensures reply.LoginAccepted? ==>
              && r.result == Success(reply.data)
              && r.storage.Keys == st.Keys + {TokenKey, UserKey}
              && r.storage[TokenKey] == reply.data.token
              && r.storage[UserKey] == codec.stringifyUser(reply.data.user)
              && forall k :: k in st && k != TokenKey && k != UserKey ==> r.storage[k] == st[k]
  {
    match reply
    case LoginUnreachable(e) => LoginOutcome(Failure(ErrorObject(e)), st)
    case LoginRefused(m) => LoginOutcome(Failure(ErrorObject(OrElse(m, LoginFailedMessage))), st)
    case LoginUnreadable(e) => LoginOutcome(Failure(ErrorObject(e)), st)
    case LoginAccepted(data) =>
      LoginOutcome(Success(data), st[TokenKey := data.token][UserKey := codec.stringifyUser(data.user)])
  }

  /** A refused login always carries a non-empty message. */
  lemma RefusedLoginHasMessage(st: Storage, message: Option<string>, codec: Codec)
    ensures var r := Login(st, LoginRefused(message), codec);
            r.result.Failure? && r.result.error.ErrorObject? && r.result.error.message != ""
  {
  }

  /** With a faithful JSON codec, a successful login with a non-empty token
      that has not expired makes the guard answer true, without cleanup, and
      the stored profile reads back as the one the server sent. */
  lemma LoginThenAuthenticated(st: Storage, data: LoginData, nowMs: int, codec: Codec)
    requires WellBehaved(codec)
    requires data.token != "" && !IsTokenExpired(data.token, nowMs, codec)
    ensures var after := Login(st, LoginAccepted(data), codec).storage;
            && IsAuthenticated(after, nowMs, codec) == Checked(true, after)
            && GetUser(after, codec) == Some(data.user)
  {
    var after := Login(st, LoginAccepted(data), codec).storage;
    assert codec.stringifyUser(data.user) != "";
    assert GetUser(after, codec) == Some(data.user);
  }

  /** Conversely, a stored token that has expired is removed together with
      the profile, and the guard answers false. */
  lemma ExpiredSessionIsCleared(st: Storage, nowMs: int, codec: Codec)
    requires HasToken(st) && GetUser(st, codec).Some?
    requires IsTokenExpired(st[TokenKey], nowMs, codec)
    ensures IsAuthenticated(st, nowMs, codec) == Checked(false, Logout(st))
    ensures TokenKey !in IsAuthenticated(st, nowMs, codec).storage
  {
  }
}
