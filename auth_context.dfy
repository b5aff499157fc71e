/** The session store shared by every page: whether the session cookie is
    believed valid (`auth`) and whether the startup check of it is still
    outstanding (`loading`). */
module AuthContext {
  import opened Common

  /** Where the one startup request `GET /auth/refresh` stands. */
  datatype RefreshState = NotIssued | InFlight | Settled

  const RefreshRequest: Request := Request(Get, "/auth/refresh")

  class AuthProvider {
    var auth: bool
    var loading: bool
    var refresh: RefreshState

    /** `loading` stays true exactly until the startup check has settled. */
    ghost predicate Valid()
      reads this
    {
      loading <==> !refresh.Settled?
    }

    /** Initial state: not authenticated, still loading, nothing sent yet. */
    constructor ()
      ensures Valid()
      ensures !auth && loading && refresh == NotIssued
    {
      auth := false;
      loading := true;
      refresh := NotIssued;
    }

    /** The mount effect. Its dependency list is empty, so it runs on the
        first mount only: later calls send nothing and change nothing. */
    method RunRefreshEffect() returns (sent: Option<Request>)
      requires Valid()
      modifies this`refresh
      ensures Valid()
      ensures old(refresh) == NotIssued ==> sent == Some(RefreshRequest) && refresh == InFlight
      ensures old(refresh) != NotIssued ==> sent == None && refresh == old(refresh)
      ensures auth == old(auth) && loading == old(loading)
    {
      if refresh == NotIssued {
        refresh := InFlight;
        sent := Some(RefreshRequest);
      } else {
        sent := None;
      }
    }

    /** The refresh request settles: success means authenticated, any
        failure means not authenticated, and on both paths `loading` drops to
        false for good. */
    method SettleRefresh(outcome: Response<()>)
      requires Valid() && refresh == InFlight
      modifies this
      ensures Valid()
      ensures auth == outcome.Ok?
      ensures !loading && refresh == Settled
    {
      match outcome {
        case Ok(_) => auth := true;
        case Err(_) => auth := false;
      }
      loading := false;
      refresh := Settled;
    }

    /** `setAuth`, the one writer the context hands to pages. */
    method SetAuth(value: bool)
      requires Valid()
      modifies this`auth
      ensures Valid()
      ensures auth == value
      ensures loading == old(loading) && refresh == old(refresh)
    {
      auth := value;
    }
  }
}
