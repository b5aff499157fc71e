/** The login page: one submit handler that marks the page busy, posts the
    credentials, and on success records the session and moves on. */
module LoginPage {
  import opened Common
  import opened AppRoutes
  import opened AuthContext

  datatype Credentials = Credentials(email: string, password: string)

  const LoginRequest: Request := Request(Post, "/auth/login")
  const LoginFallback: string := "Invalid credentials"
  /** Where a successful login navigates (not a route of the table). */
  const AfterLogin: Path := "/userform"

  class Login {
    const session: AuthProvider
    /** The page's own busy flag, shown on the button. */
    var loading: bool
    /** The form library's `isSubmitting`, set before the handler runs. */
    var submitting: bool
    /** The credentials of the request awaiting its response, if any. */
    var pending: Option<Credentials>

    constructor (session: AuthProvider)
      ensures this.session == session
      ensures !loading && !submitting && pending == None
    {
      this.session := session;
      loading := false;
      submitting := false;
      pending := None;
    }

    /** Submitting the form: the page is busy while the request is outstanding. */
    method HandleSubmit(values: Credentials) returns (sent: Request)
      modifies this
      ensures sent == LoginRequest
      ensures loading && submitting && pending == Some(values)
    {
      submitting := true;
      loading := true;
      pending := Some(values);
      sent := LoginRequest;
    }

    /** The login request settles. Success sets the shared `auth` and
        navigates to `/userform`; failure leaves `auth` alone and shows the
        server's message, or "Invalid credentials" when it sent none. Either
        way the page and the form are no longer busy. */
    method SettleSubmit(outcome: Response<()>) returns (navigation: Option<Path>, alert: Option<string>)
      requires pending.Some?
      requires session.Valid()
      modifies this, session`auth
      ensures session.Valid()
      ensures session.loading == old(session.loading)
      ensures outcome.Ok? ==> session.auth && navigation == Some(AfterLogin) && alert == None
      ensures outcome.Err? ==>
        session.auth == old(session.auth) && navigation == None
        && alert == Some(MessageOr(outcome.message, LoginFallback))
      ensures !loading && !submitting && pending == None
    {
      match outcome {
        case Ok(_) =>
          session.SetAuth(true);
          navigation, alert := Some(AfterLogin), None;
        case Err(message) =>
          navigation, alert := None, Some(MessageOr(message, LoginFallback));
      }
      loading := false;
      submitting := false;
      pending := None;
    }
  }

  /** A visitor whose startup check failed logs in: the handler navigates
      to `/userform`, and the shell, now seeing `auth`, sends it through the
      catch-all, `/` and `/login` on to the user table. */
  method LoginLandsOnUserTable(credentials: Credentials) returns (landing: Option<View>)
    ensures landing == Some(UserTableView)
  {
    var session := new AuthProvider();
    var _ := session.RunRefreshEffect();
    session.SettleRefresh(Err(None));
    var page := new Login(session);
    var _ := page.HandleSubmit(credentials);
    var navigation, _ := page.SettleSubmit(Ok(()));
    SettleAtUserform(true, 3);
    landing := Settle(session.auth, session.loading, navigation.value, 3);
  }
}
