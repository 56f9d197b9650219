/**
 * The authentication service: the role granted at registration, the login
 * flow and its error mapping, the field mapping of a token refresh, and the
 * guard of the password reset. Every call to the identity provider is an
 * oracle: its outcome is a parameter.
 */
module AuthService {
  import opened Wrappers
  import AuthMiddleware
  import ConfigManager

  /** A JavaScript string that may be `undefined`, read for truthiness. */
  predicate Truthy(s: Option<string>) {
    s.Some? && s.value != []
  }

  // ---------------------------------------------------------------------------
  // register
  // ---------------------------------------------------------------------------

  /** The role `register` puts in the custom claims: the supplied key must be non-empty and equal the configured one. */
  function RegisterRole(supplied: Option<string>, configured: Option<string>): (role: string)
    ensures role == "admin" || role == "user"
    ensures role == "admin" <==> Truthy(supplied) && Truthy(configured) && supplied == configured
  {
    if Truthy(supplied) && Truthy(configured) && supplied.value == configured.value then "admin" else "user"
  }

  /** Without a configured key nobody registers as an admin, whatever key is supplied. */
  lemma NoConfiguredKeyNoAdmin(supplied: Option<string>, configured: Option<string>)
    requires !Truthy(configured)
    ensures RegisterRole(supplied, configured) == "user"
  {
  }

  /**
   * A user registered without the matching key is turned away by an
   * admin-only gate; one registered with it passes.
   */
  lemma AdminGateFollowsRegistration(c: AuthMiddleware.Claims, supplied: Option<string>, configured: Option<string>)
    ensures var registered := c.(role := Some(RegisterRole(supplied, configured)));
      AuthMiddleware.CheckRole(["admin"], Some(registered)).Next? <==>
        Truthy(supplied) && Truthy(configured) && supplied == configured
  {
  }

  // ---------------------------------------------------------------------------
  // login
  // ---------------------------------------------------------------------------

  /** The password sign-in request: its data, an error response with the provider's message, or no response. */
  datatype SignIn = SignedIn(idToken: Option<string>, refreshToken: Option<string>) | ErrorResponse(providerMessage: string) | NoResponse(code: Option<string>)

  /** The verification of the returned identity token. */
  datatype Verification = Verified(claims: AuthMiddleware.Claims) | VerificationFailed(code: Option<string>)

  /** What the `catch` of `login` sees: an error with a response, or one without (and its `code`). */
  datatype Failure = WithResponse(providerMessage: string) | WithoutResponse(code: Option<string>)

  datatype LoginOutcome =
    | LoggedIn(token: Option<string>, refreshToken: Option<string>, uid: string, email: Option<string>, role: string)
    | LoginFailed(message: string)

  const UserDisabled: string := "User account is disabled"
  const TooManyAttempts: string := "Too many attempts. Please try again later"
  const IncorrectCredentials: string := "Incorrect login credentials."
  const UnknownLoginError: string := "An unknown error occurred during login"
  const InvalidToken: string := "Invalid token received"
  const Unexpected: string := "An unexpected error occurred"

  /** The messages of errors with a response, and of errors without one. */
  const ResponseMessages: set<string> := {UserDisabled, TooManyAttempts, IncorrectCredentials, UnknownLoginError}
  const LocalMessages: set<string> := {InvalidToken, Unexpected}

  /** The `catch` of `login`: every failure is replaced by one of six fixed messages. */
  function CatchMessage(f: Failure): (m: string)
    ensures f.WithResponse? <==> m in ResponseMessages
    ensures f.WithoutResponse? <==> m in LocalMessages
  {
    match f
    case WithResponse(message) =>
      if message == "USER_DISABLED" then UserDisabled
      else if message == "TOO_MANY_ATTEMPTS_TRY_LATER" then TooManyAttempts
      else if message == "INVALID_LOGIN_CREDENTIALS" then IncorrectCredentials
      else UnknownLoginError
    case WithoutResponse(code) =>
      if code == Some("auth/argument-error") then InvalidToken else Unexpected
  }

  /** Only the three known provider codes get their own message. */
  lemma ProviderCodes(message: string)
    ensures CatchMessage(WithResponse(message)) != UnknownLoginError <==>
      message in {"USER_DISABLED", "TOO_MANY_ATTEMPTS_TRY_LATER", "INVALID_LOGIN_CREDENTIALS"}
  {
  }

  /**
   * `login`: sign in, verify the returned token, require a verified email.
   * The "Email not verified" error is thrown inside the `try` and has neither
   * a response nor a code.
   */
  function Login(signIn: SignIn, verify: Option<string> -> Verification): (r: LoginOutcome)
    ensures r.LoggedIn? <==>
      signIn.SignedIn? && verify(signIn.idToken).Verified? && verify(signIn.idToken).claims.emailVerified
    ensures r.LoggedIn? ==>
      var c := verify(signIn.idToken).claims;
      && r.token == signIn.idToken && r.refreshToken == signIn.refreshToken
      && r.uid == c.uid && r.email == c.email
      && r.role == (if Truthy(c.role) then c.role.value else "user")
    ensures signIn.ErrorResponse? ==> r == LoginFailed(CatchMessage(WithResponse(signIn.providerMessage)))
    ensures r.LoginFailed? && !signIn.ErrorResponse? ==> r.message in LocalMessages
  {
    match signIn
    case ErrorResponse(message) => LoginFailed(CatchMessage(WithResponse(message)))
    case NoResponse(code) => LoginFailed(CatchMessage(WithoutResponse(code)))
    case SignedIn(idToken, refreshToken) =>
      match verify(idToken)
      case VerificationFailed(code) => LoginFailed(CatchMessage(WithoutResponse(code)))
      case Verified(c) =>
        if !c.emailVerified then LoginFailed(CatchMessage(WithoutResponse(None)))
        else LoggedIn(idToken, refreshToken, c.uid, c.email, if Truthy(c.role) then c.role.value else "user")
  }

  /** An unverified email surfaces as "An unexpected error occurred", like a network failure. */
  lemma UnverifiedEmailIsUnexpected(signIn: SignIn, verify: Option<string> -> Verification)
    requires signIn.SignedIn? && verify(signIn.idToken).Verified? && !verify(signIn.idToken).claims.emailVerified
    ensures Login(signIn, verify) == LoginFailed(Unexpected)
    ensures Login(signIn, verify) == Login(NoResponse(None), verify)
  {
  }

  /** A logged-in user always has a non-empty role. */
  lemma LoginRoleNonEmpty(signIn: SignIn, verify: Option<string> -> Verification)
    requires Login(signIn, verify).LoggedIn?
    ensures Login(signIn, verify).role != []
  {
  }

  // ---------------------------------------------------------------------------
  // refreshToken and forgotPassword
  // ---------------------------------------------------------------------------

  /** The token endpoint's JSON: `id_token` and `refresh_token`. */
  datatype TokenData = TokenData(idToken: Option<string>, refreshToken: Option<string>)

  /** What `refreshToken` returns: `{ token, refreshToken }`. */
  datatype Tokens = Tokens(token: Option<string>, refreshToken: Option<string>)

  /** `refreshToken`: the two fields renamed; a failed request propagates. */
  function RefreshToken(response: Result<TokenData>): (r: Result<Tokens>)
    ensures r.Ok? <==> response.Ok?
    ensures r.Ok? ==> r.value.token == response.value.idToken && r.value.refreshToken == response.value.refreshToken
    ensures r.Err? ==> r.message == response.message
  {
    match response
    case Ok(data) => Ok(Tokens(data.idToken, data.refreshToken))
    case Err(message) => Err(message)
  }

  /** The refresh handler: the tokens as the JSON reply, or a 401 for any failure, as the browser reads them. */
  function RefreshReply(result: Result<Tokens>): (r: ConfigManager.RefreshReply)
    ensures r.Refreshed? <==> result.Ok?
    ensures r.Refreshed? ==> r.token == result.value.token && r.refreshToken == result.value.refreshToken
  {
    match result
    case Ok(tokens) => ConfigManager.Refreshed(tokens.token, tokens.refreshToken)
    case Err(_) => ConfigManager.RefreshFailed
  }

  /**
   * End to end, a refresh stores the provider's `id_token` as the access token
   * and replaces the stored refresh token only with a non-empty new one; a
   * failed request logs out.
   */
  lemma RefreshEndToEnd(storage: ConfigManager.Storage, response: Result<TokenData>)
    requires ConfigManager.StoredRefreshToken(storage).Some?
    ensures var (after, ok) := ConfigManager.HandleTokenRefresh(storage, RefreshReply(RefreshToken(response)));
      && (ok <==> response.Ok?)
      && (!ok ==> after == ConfigManager.Logout(storage))
      && (ok ==> after["accessToken"] == response.value.idToken.GetOr("undefined"))
      && (ok && Truthy(response.value.refreshToken) ==> after["refreshToken"] == response.value.refreshToken.value)
      && (ok && !Truthy(response.value.refreshToken) ==> after["refreshToken"] == storage["refreshToken"])
  {
  }

  /**
   * `forgotPassword`: an empty lookup throws "User not found" before any link
   * is made; otherwise the reset link goes to the address. The lookup and the
   * link generation are oracles whose errors propagate.
   */
  function ForgotPassword(email: string, lookup: Result<Option<string>>, link: Result<string>): (r: (seq<(string, string)>, Result<()>))
    ensures r.1.Ok? <==> lookup.Ok? && lookup.value.Some? && link.Ok?
    ensures r.0 != [] <==> r.1.Ok?
    ensures r.1.Ok? ==> r.0 == [(email, link.value)]
    ensures lookup == Ok(None) ==> r == ([], Err("User not found"))
  {
    match lookup
    case Err(message) => ([], Err(message))
    case Ok(None) => ([], Err("User not found"))
    case Ok(Some(_)) =>
      match link
      case Err(message) => ([], Err(message))
      case Ok(l) => ([(email, l)], Ok(()))
  }

  /** A handler's reply: its status and the one message of its JSON body. */
  datatype Reply = Reply(status: nat, message: string)

  const ResetSent: string := "Reset password email sent successfully"
  const ResetFailed: string := "Failed to send reset password email"

  /** The forgot-password handler: 200 when the service returns, 500 for whatever it throws. */
  function ForgotPasswordReply(result: Result<()>): (reply: Reply)
    ensures reply.status == 200 <==> result.Ok?
    ensures result.Err? ==> reply == Reply(500, ResetFailed)
  {
    match result
    case Ok(_) => Reply(200, ResetSent)
    case Err(_) => Reply(500, ResetFailed)
  }

  /**
   * End to end, the client gets 200 exactly when the reset link was sent; every
   * failure, an unknown address included, reaches it as the same 500 reply, so
   * the reply does not tell whether an address is registered.
   */
  lemma ForgotPasswordEndToEnd(email: string, lookup: Result<Option<string>>, link: Result<string>)
    ensures var (sent, r) := ForgotPassword(email, lookup, link);
      && (ForgotPasswordReply(r) == Reply(200, ResetSent) <==> sent != [])
      && (sent == [] ==> ForgotPasswordReply(r) == Reply(500, ResetFailed))
      && (lookup == Ok(None) ==> r == Err("User not found") && ForgotPasswordReply(r) == Reply(500, ResetFailed))
  {
  }
}
