/** The signup page: three controlled fields, a guard that all are filled,
    and a busy flag around the signup request. The page never reads or
    writes the shared session. */
module SignupPage {
  import opened Common
  import opened AppRoutes

  const SignupRequest: Request := Request(Post, "/auth/signup")
  const MissingFields: string := "Please fill all fields"
  const SignupSucceeded: string := "Signup successful! Please login."
  const SignupFallback: string := "Signup failed"

  /** `!username || !email || !password` fails exactly when some field is empty. */
  predicate AllFilled(username: string, email: string, password: string) {
    username != "" && email != "" && password != ""
  }

  class Signup {
    var username: string
    var email: string
    var password: string
    var loading: bool
    /** A signup request is awaiting its response. */
    var pending: bool

    constructor ()
      ensures username == "" && email == "" && password == ""
      ensures !loading && !pending
    {
      username, email, password := "", "", "";
      loading, pending := false, false;
    }

    /** The button's handler up to the request: with an empty field it only
        alerts, sends nothing and leaves `loading` as it was; otherwise it sets
        `loading` and posts the three fields. */
    method HandleSignup() returns (sent: Option<Request>, alert: Option<string>)
      modifies this`loading, this`pending
      ensures !AllFilled(username, email, password) ==>
        sent == None && alert == Some(MissingFields)
        && loading == old(loading) && pending == old(pending)
      ensures AllFilled(username, email, password) ==>
        sent == Some(SignupRequest) && alert == None && loading && pending
    {
      if !AllFilled(username, email, password) {
        return None, Some(MissingFields);
      }
      loading := true;
      pending := true;
      sent, alert := Some(SignupRequest), None;
    }

    /** The signup request settles: success alerts and navigates to `/login`,
        failure shows the server's message or "Signup failed"; `loading`
        ends false on both paths. */
    method SettleSignup(outcome: Response<()>) returns (navigation: Option<Path>, alert: string)
      requires pending
      modifies this`loading, this`pending
      ensures !loading && !pending
      ensures outcome.Ok? ==> navigation == Some(LoginPath) && alert == SignupSucceeded
      ensures outcome.Err? ==> navigation == None && alert == MessageOr(outcome.message, SignupFallback)
    {
      match outcome {
        case Ok(_) =>
          navigation, alert := Some(LoginPath), SignupSucceeded;
        case Err(message) =>
          navigation, alert := None, MessageOr(message, SignupFallback);
      }
      loading := false;
      pending := false;
    }
  }
}
