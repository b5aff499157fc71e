/** The user-details page: a five-field form that creates a record or, when
    a record is being edited, updates it; the table is refetched after every
    successful change rather than patched. */
module UserDetailsPage {
  import opened Common
  import opened AppRoutes
  import opened AuthContext

  /** A record as the server returns it; `age` arrives as text here. */
  datatype UserRecord = UserRecord(id: string, name: string, email: string, phone: string, address: string, age: string)

  datatype Form = Form(name: string, email: string, phone: string, address: string, age: string)

  const EmptyForm: Form := Form("", "", "", "", "")

  function FormOf(u: UserRecord): Form {
    Form(u.name, u.email, u.phone, u.address, u.age)
  }

  // The email check `/^\S+@\S+\.\S+$/`

  predicate NoSpace(s: string) {
    forall k | 0 <= k < |s| :: !IsSpace(s[k])
  }

  /** What the pattern accepts: a string without white space that splits as
      `a@b.c` with `a`, `b` and `c` non-empty, i.e. an '@' after the first
      character and a '.' at least two places after it and before the last
      character. */
  ghost predicate EmailPattern(s: string) {
    NoSpace(s) && exists i, j :: 0 < i && i + 1 < j < |s| - 1 && s[i] == '@' && s[j] == '.'
  }

  /** The first position at or after `from` holding `c`. */
  function IndexFrom(s: string, c: char, from: nat): (r: Option<nat>)
    decreases |s| - from
    ensures r.Some? ==> from <= r.value < |s| && s[r.value] == c
    ensures r.Some? ==> forall m :: from <= m < r.value ==> s[m] != c
    ensures r.None? ==> forall m :: from <= m < |s| ==> s[m] != c
  {
    if from >= |s| then None
    else if s[from] == c then Some(from)
    else IndexFrom(s, c, from + 1)
  }

  /** The last position before `end` holding `c`. */
  function LastIndexBefore(s: string, c: char, end: nat): (r: Option<nat>)
    requires end <= |s|
    ensures r.Some? ==> r.value < end && s[r.value] == c
    ensures r.Some? ==> forall m :: r.value < m < end ==> s[m] != c
    ensures r.None? ==> forall m :: 0 <= m < end ==> s[m] != c
  {
    if end == 0 then None
    else if s[end - 1] == c then Some(end - 1)
    else LastIndexBefore(s, c, end - 1)
  }

  /** Decides the pattern by taking the leftmost admissible '@' and the
      rightmost admissible '.': some split exists exactly when these two
      are far enough apart. */
  function MatchesEmail(s: string): (b: bool)
    ensures b <==> EmailPattern(s)
  {
    if s == [] then false
    else
      var at := IndexFrom(s, '@', 1);
      var dot := LastIndexBefore(s, '.', |s| - 1);
      NoSpace(s) && at.Some? && dot.Some? && at.value + 1 < dot.value
  }

  /** Every `a@b.c` built from non-empty parts without white space matches. */
  lemma EmailSplitMatches(a: string, b: string, c: string)
    requires a != [] && b != [] && c != []
    requires NoSpace(a) && NoSpace(b) && NoSpace(c)
    ensures MatchesEmail(a + "@" + b + "." + c)
  {
    var s := a + "@" + b + "." + c;
    var i, j := |a|, |a| + 1 + |b|;
    assert s[i] == '@' && s[j] == '.';
    forall k | 0 <= k < |s| ensures !IsSpace(s[k]) {
      if k < i {
        assert s[k] == a[k];
      } else if i < k < j {
        assert s[k] == b[k - i - 1];
      } else if j < k {
        assert s[k] == c[k - j - 1];
      }
    }
  }

  // Validation

  const FieldsRequired: string := "All fields are required"
  const InvalidEmail: string := "Invalid email"

  /** `!name || !email || !phone || !address || !age` fails exactly when some field is empty. */
  predicate RequiredFilled(f: Form) {
    f.name != "" && f.email != "" && f.phone != "" && f.address != "" && f.age != ""
  }

  datatype Verdict = Accepted | Rejected(alert: string)

  /** `validate()`: the required-field check first, then the email pattern;
      each failure raises its own alert. */
  function Validate(f: Form): (v: Verdict)
    ensures v == Accepted <==> RequiredFilled(f) && EmailPattern(f.email)
    ensures !RequiredFilled(f) ==> v == Rejected(FieldsRequired)
    ensures RequiredFilled(f) && !EmailPattern(f.email) ==> v == Rejected(InvalidEmail)
  {
    if !RequiredFilled(f) then Rejected(FieldsRequired)
    else if !MatchesEmail(f.email) then Rejected(InvalidEmail)
    else Accepted
  }

  // The page

  const UserDetailsPath: string := "/userdetails"

  /** A request together with the form sent as its body. */
  datatype Submission = Submission(request: Request, body: Form)

  /** `if (editingId)`: an id is present and non-empty. */
  predicate IsEditing(editingId: Option<string>) {
    editingId.Some? && editingId.value != ""
  }

  class UserDetails {
    const session: AuthProvider
    var form: Form
    var userList: seq<UserRecord>
    /** The `_id` of the record being edited, if any. */
    var editingId: Option<string>

    constructor (session: AuthProvider)
      ensures this.session == session
      ensures form == EmptyForm && userList == [] && editingId == None
    {
      this.session := session;
      form := EmptyForm;
      userList := [];
      editingId := None;
    }

    /** `GET /userdetails`: the server's list replaces the table; a failure
        is only logged and keeps the table. */
    method FetchUsers(outcome: Response<seq<UserRecord>>) returns (sent: Request)
      modifies this`userList
      ensures sent == Request(Get, UserDetailsPath)
      ensures outcome.Ok? ==> userList == outcome.body
      ensures outcome.Err? ==> userList == old(userList)
    {
      sent := Request(Get, UserDetailsPath);
      match outcome {
        case Ok(list) => userList := list;
        case Err(_) =>
      }
    }

    /** Saves the form. An invalid form only alerts: nothing is sent and
        nothing changes. A valid one is put to `/userdetails/:editingId` when
        a record is being edited, and posted to `/userdetails` otherwise. On
        success the form resets, editing ends and a refetch is issued; a
        failure is caught and keeps the form and the editing id. The table
        itself changes only when the refetch answers (`FetchUsers`). */
    method HandleSubmit(outcome: Response<()>) returns (sent: Option<Submission>, alert: Option<string>, refetch: bool)
      modifies this`form, this`editingId
      ensures Validate(old(form)).Rejected? ==>
        sent == None && alert == Some(Validate(old(form)).alert) && !refetch
        && form == old(form) && editingId == old(editingId)
      ensures Validate(old(form)) == Accepted && IsEditing(old(editingId)) ==>
        sent == Some(Submission(Request(Put, UserDetailsPath + "/" + old(editingId).value), old(form)))
      ensures Validate(old(form)) == Accepted && !IsEditing(old(editingId)) ==>
        sent == Some(Submission(Request(Post, UserDetailsPath), old(form)))
      ensures Validate(old(form)) == Accepted ==> alert == None
      ensures Validate(old(form)) == Accepted && outcome.Ok? ==>
        form == EmptyForm && editingId == None && refetch
      ensures Validate(old(form)) == Accepted && outcome.Err? ==>
        form == old(form) && editingId == old(editingId) && !refetch
    {
      var verdict := Validate(form);
      if verdict.Rejected? {
        return None, Some(verdict.alert), false;
      }
      var request := if IsEditing(editingId)
        then Request(Put, UserDetailsPath + "/" + editingId.value)
        else Request(Post, UserDetailsPath);
      sent, alert := Some(Submission(request, form)), None;
      match outcome {
        case Ok(_) =>
          form := EmptyForm;
          editingId := None;
          refetch := true;
        case Err(_) =>
          refetch := false;
      }
    }

    /** Loads a record into the form and marks it as the one being edited. */
    method HandleEdit(user: UserRecord)
      modifies this`form, this`editingId
      ensures form == FormOf(user) && editingId == Some(user.id)
    {
      form := FormOf(user);
      editingId := Some(user.id);
    }

    /** `DELETE /userdetails/:id`, then a refetch on success; a failure is
        caught. The page's own state is not touched either way. */
    method HandleDelete(id: string, outcome: Response<()>) returns (sent: Request, refetch: bool)
      ensures sent == Request(Delete, UserDetailsPath + "/" + id)
      ensures refetch <==> outcome.Ok?
    {
      sent := Request(Delete, UserDetailsPath + "/" + id);
      refetch := outcome.Ok?;
    }

    /** Logout: on success the session's `auth` is cleared and the page
        navigates to `/login`; a failure is caught and changes nothing. */
    method HandleLogout(outcome: Response<()>) returns (sent: Request, navigation: Option<Path>)
      requires session.Valid()
      modifies session`auth
      ensures session.Valid() && session.loading == old(session.loading)
      ensures sent == LogoutRequest
      ensures outcome.Ok? ==> !session.auth && navigation == Some(LoginPath)
      ensures outcome.Err? ==> session.auth == old(session.auth) && navigation == None
    {
      sent := LogoutRequest;
      match outcome {
        case Ok(_) =>
          session.SetAuth(false);
          navigation := Some(LoginPath);
        case Err(_) =>
          navigation := None;
      }
    }
  }

  /** Editing a record and saving it at once sends the record back to its
      own URL when its fields pass validation and it has an `_id`; after a
      successful save the empty form would be rejected. */
  method EditThenSubmit(user: UserRecord) returns (sent: Option<Submission>, resetRejected: bool)
    ensures Validate(FormOf(user)) == Accepted && user.id != "" ==>
      sent == Some(Submission(Request(Put, UserDetailsPath + "/" + user.id), FormOf(user))) && resetRejected
    ensures Validate(FormOf(user)).Rejected? ==> sent == None
  {
    var session := new AuthProvider();
    var page := new UserDetails(session);
    page.HandleEdit(user);
    var alert, refetch;
    sent, alert, refetch := page.HandleSubmit(Ok(()));
    resetRejected := Validate(page.form).Rejected?;
  }
}
