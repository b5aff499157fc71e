/** The todo page. It keeps its list in step with the server by patching it
    in place: a created todo is appended, a toggled or edited one replaces
    every element with its `_id`, a deleted one is filtered out. */
module TodoPage {
  import opened Common
  import opened AppRoutes
  import opened AuthContext

  datatype TodoItem = TodoItem(id: string, text: string, completed: bool)

  // The list transforms

  /** `todos.map(t => t._id === id ? res : t)`. */
  function ReplaceById(todos: seq<TodoItem>, id: string, res: TodoItem): (r: seq<TodoItem>)
    ensures |r| == |todos|
    ensures forall k :: 0 <= k < |todos| ==> r[k] == if todos[k].id == id then res else todos[k]
  {
    if todos == [] then []
    else [if todos[0].id == id then res else todos[0]] + ReplaceById(todos[1..], id, res)
  }

  /** `todos.filter(t => t._id !== id)`. */
  function RemoveById(todos: seq<TodoItem>, id: string): (r: seq<TodoItem>)
    ensures |r| <= |todos|
    ensures forall t :: t in r <==> t in todos && t.id != id
  {
    if todos == [] then []
    else (if todos[0].id == id then [] else [todos[0]]) + RemoveById(todos[1..], id)
  }

  /** How many elements carry `id`. */
  function CountId(todos: seq<TodoItem>, id: string): nat {
    if todos == [] then 0 else (if todos[0].id == id then 1 else 0) + CountId(todos[1..], id)
  }

  /** Removing by id keeps the relative order of what remains: it acts on
      each part of a concatenation separately. */
  lemma {:induction false} RemoveByIdConcat(a: seq<TodoItem>, b: seq<TodoItem>, id: string)
    ensures RemoveById(a + b, id) == RemoveById(a, id) + RemoveById(b, id)
  {
    if a == [] {
      assert a + b == b;
    } else {
      assert (a + b)[1..] == a[1..] + b;
      RemoveByIdConcat(a[1..], b, id);
    }
  }

  /** Exactly the elements that carry `id` are dropped. */
  lemma {:induction false} RemoveByIdLength(todos: seq<TodoItem>, id: string)
    ensures |RemoveById(todos, id)| == |todos| - CountId(todos, id)
  {
    if todos != [] {
      RemoveByIdLength(todos[1..], id);
    }
  }

  /** A list in which no element carries `id` is left as it is. */
  lemma {:induction false} RemoveAbsentId(todos: seq<TodoItem>, id: string)
    requires forall k :: 0 <= k < |todos| ==> todos[k].id != id
    ensures RemoveById(todos, id) == todos
  {
    if todos != [] {
      RemoveAbsentId(todos[1..], id);
    }
  }

  /** Deleting the same id a second time changes nothing. */
  lemma RemoveByIdIdempotent(todos: seq<TodoItem>, id: string)
    ensures RemoveById(RemoveById(todos, id), id) == RemoveById(todos, id)
  {
    var r := RemoveById(todos, id);
    forall k | 0 <= k < |r| ensures r[k].id != id {
      assert r[k] in r;
    }
    RemoveAbsentId(r, id);
  }

  /** The invariant the page ought to keep: no two todos share an `_id`. */
  ghost predicate UniqueIds(todos: seq<TodoItem>) {
    forall i, j :: 0 <= i < j < |todos| ==> todos[i].id != todos[j].id
  }

  /** Appending a created todo keeps ids unique exactly when its id is new. */
  lemma AppendKeepsUniqueIds(todos: seq<TodoItem>, res: TodoItem)
    requires UniqueIds(todos)
    ensures UniqueIds(todos + [res]) <==> forall k :: 0 <= k < |todos| ==> todos[k].id != res.id
  {
    var r := todos + [res];
    if !(forall k :: 0 <= k < |todos| ==> todos[k].id != res.id) {
      var k :| 0 <= k < |todos| && todos[k].id == res.id;
      assert r[k].id == r[|todos|].id;
    }
  }

  /** A response that keeps the id it replaces keeps ids unique. */
  lemma ReplaceKeepsUniqueIds(todos: seq<TodoItem>, id: string, res: TodoItem)
    requires UniqueIds(todos) && res.id == id
    ensures UniqueIds(ReplaceById(todos, id, res))
  {
  }

  /** Filtering keeps ids unique. */
  lemma {:induction false} RemoveKeepsUniqueIds(todos: seq<TodoItem>, id: string)
    requires UniqueIds(todos)
    ensures UniqueIds(RemoveById(todos, id))
  {
    if todos != [] {
      var rest := RemoveById(todos[1..], id);
      RemoveKeepsUniqueIds(todos[1..], id);
      if todos[0].id != id {
        var r := [todos[0]] + rest;
        forall j | 1 <= j < |r| ensures r[0].id != r[j].id {
          assert r[j] in rest;
          assert r[j] in todos[1..];
        }
      }
    }
  }

  /** Toggling the todo at position `k` of a list with unique ids leaves one
      element with that id, the server's response, at the same position,
      and every other element where it was. */
  lemma ToggleHitsOnePosition(todos: seq<TodoItem>, k: nat, res: TodoItem)
    requires UniqueIds(todos) && k < |todos| && res.id == todos[k].id
    ensures var r := ReplaceById(todos, todos[k].id, res);
      r[k] == res && CountId(r, res.id) == 1
      && forall j :: 0 <= j < |r| && j != k ==> r[j] == todos[j]
  {
    var r := ReplaceById(todos, todos[k].id, res);
    CountSingle(r, k);
  }

  /** In a list with unique ids, the id at position `k` occurs once. */
  lemma {:induction false} CountSingle(todos: seq<TodoItem>, k: nat)
    requires UniqueIds(todos) && k < |todos|
    ensures CountId(todos, todos[k].id) == 1
  {
    if k == 0 {
      CountAbsentId(todos[1..], todos[0].id);
    } else {
      CountSingle(todos[1..], k - 1);
    }
  }

  lemma {:induction false} CountAbsentId(todos: seq<TodoItem>, id: string)
    requires forall k :: 0 <= k < |todos| ==> todos[k].id != id
    ensures CountId(todos, id) == 0
  {
    if todos != [] {
      CountAbsentId(todos[1..], id);
    }
  }

  // The page

  const TodosPath: string := "/todos"

  function ToggleRequest(id: string): Request { Request(Put, "/todos/" + id) }
  function DeleteRequest(id: string): Request { Request(Delete, "/todos/" + id) }
  function UpdateRequest(id: string): Request { Request(Put, "/todos/" + id + "/update") }

  class Todo {
    const session: AuthProvider
    var todos: seq<TodoItem>
    /** The new-todo input. */
    var text: string
    /** The `_id` of the todo being edited, if any. */
    var editingId: Option<string>
    /** The edit input. */
    var editingText: string

    constructor (session: AuthProvider)
      ensures this.session == session
      ensures todos == [] && text == "" && editingId == None && editingText == ""
    {
      this.session := session;
      todos := [];
      text := "";
      editingId := None;
      editingText := "";
    }

    /** `GET /todos` on mount: the server's list replaces the page's; on any
        failure the list stays and the page navigates to `/login`. */
    method FetchTodos(outcome: Response<seq<TodoItem>>) returns (sent: Request, navigation: Option<Path>)
      modifies this`todos
      ensures sent == Request(Get, TodosPath)
      ensures outcome.Ok? ==> todos == outcome.body && navigation == None
      ensures outcome.Err? ==> todos == old(todos) && navigation == Some(LoginPath)
    {
      sent := Request(Get, TodosPath);
      match outcome {
        case Ok(list) =>
          todos := list;
          navigation := None;
        case Err(_) =>
          navigation := Some(LoginPath);
      }
    }

    /** Adds the typed todo. Blank input (empty or only white space) sends
        nothing and changes nothing. Otherwise `{text}` is posted; the server's
        record is appended and the input cleared. The handler has no `catch`:
        a failed request rejects its promise and changes nothing. */
    method AddTodo(outcome: Response<TodoItem>) returns (sent: Option<Request>, rejected: bool)
      modifies this`todos, this`text
      ensures IsBlank(old(text)) ==>
        sent == None && !rejected && todos == old(todos) && text == old(text)
      ensures !IsBlank(old(text)) ==> sent == Some(Request(Post, TodosPath))
      ensures !IsBlank(old(text)) && outcome.Ok? ==>
        !rejected && todos == old(todos) + [outcome.body] && text == ""
      ensures !IsBlank(old(text)) && outcome.Err? ==>
        rejected && todos == old(todos) && text == old(text)
    {
      if IsBlank(text) {
        return None, false;
      }
      sent := Some(Request(Post, TodosPath));
      match outcome {
        case Ok(created) =>
          todos := todos + [created];
          text := "";
          rejected := false;
        case Err(_) =>
          rejected := true;
      }
    }

    /** `PUT /todos/:id` flips `completed` on the server; its record replaces
        every element with that id. No `catch`: failure rejects, nothing changes. */
    method ToggleTodo(id: string, outcome: Response<TodoItem>) returns (sent: Request, rejected: bool)
      modifies this`todos
      ensures sent == ToggleRequest(id)
      ensures outcome.Ok? ==> !rejected && todos == ReplaceById(old(todos), id, outcome.body)
      ensures outcome.Err? ==> rejected && todos == old(todos)
    {
      sent := ToggleRequest(id);
      match outcome {
        case Ok(updated) =>
          todos := ReplaceById(todos, id, updated);
          rejected := false;
        case Err(_) =>
          rejected := true;
      }
    }

    /** `DELETE /todos/:id`, then every element with that id is filtered out.
        No `catch`: failure rejects, nothing changes. */
    method DeleteTodo(id: string, outcome: Response<()>) returns (sent: Request, rejected: bool)
      modifies this`todos
      ensures sent == DeleteRequest(id)
      ensures outcome.Ok? ==> !rejected && todos == RemoveById(old(todos), id)
      ensures outcome.Err? ==> rejected && todos == old(todos)
    {
      sent := DeleteRequest(id);
      match outcome {
        case Ok(_) =>
          todos := RemoveById(todos, id);
          rejected := false;
        case Err(_) =>
          rejected := true;
      }
    }

    /** Opens the editor on one todo (also what its Edit button does inline). */
    method StartEdit(id: string, currentText: string)
      modifies this`editingId, this`editingText
      ensures editingId == Some(id) && editingText == currentText
    {
      editingId := Some(id);
      editingText := currentText;
    }

    /** The Cancel button closes the editor; the edit text is left as it was. */
    method CancelEdit()
      modifies this`editingId
      ensures editingId == None
    {
      editingId := None;
    }

    /** Saves an edit. Blank edit text sends nothing and changes nothing.
        Otherwise `{text: editingText}` is put to `/todos/:id/update`; on
        success the record replaces every element with that id and the editor
        closes and clears; a failure is caught and leaves everything as it was. */
    method UpdateTodo(id: string, outcome: Response<TodoItem>) returns (sent: Option<Request>)
      modifies this`todos, this`editingId, this`editingText
      ensures IsBlank(old(editingText)) ==>
        sent == None && todos == old(todos)
        && editingId == old(editingId) && editingText == old(editingText)
      ensures !IsBlank(old(editingText)) ==> sent == Some(UpdateRequest(id))
      ensures !IsBlank(old(editingText)) && outcome.Ok? ==>
        todos == ReplaceById(old(todos), id, outcome.body) && editingId == None && editingText == ""
      ensures !IsBlank(old(editingText)) && outcome.Err? ==>
        todos == old(todos) && editingId == old(editingId) && editingText == old(editingText)
    {
      if IsBlank(editingText) {
        return None;
      }
      sent := Some(UpdateRequest(id));
      match outcome {
        case Ok(updated) =>
          todos := ReplaceById(todos, id, updated);
          editingId := None;
          editingText := "";
        case Err(_) =>
      }
    }

    /** Logout as written: posts `/auth/logout` and, once it succeeds,
        navigates to `/login`. It never calls `setAuth`, so the session's
        `auth` stays true. No `catch`: failure rejects without navigating. */
    method HandleLogout(outcome: Response<()>) returns (sent: Request, navigation: Option<Path>, rejected: bool)
      ensures sent == LogoutRequest
      ensures session.auth == old(session.auth)
      ensures outcome.Ok? ==> navigation == Some(LoginPath) && !rejected
      ensures outcome.Err? ==> navigation == None && rejected
    {
      sent := LogoutRequest;
      match outcome {
        case Ok(_) =>
          navigation, rejected := Some(LoginPath), false;
        case Err(_) =>
          navigation, rejected := None, true;
      }
    }

    /** Logout as the other pages write it: a successful logout also clears
        the session's `auth` before navigating to `/login`. */
    method HandleLogoutClearingSession(outcome: Response<()>) returns (sent: Request, navigation: Option<Path>, rejected: bool)
      requires session.Valid()
      modifies session`auth
      ensures session.Valid() && session.loading == old(session.loading)
      ensures sent == LogoutRequest
      ensures outcome.Ok? ==> !session.auth && navigation == Some(LoginPath) && !rejected
      ensures outcome.Err? ==> session.auth == old(session.auth) && navigation == None && rejected
    {
      sent := LogoutRequest;
      match outcome {
        case Ok(_) =>
          session.SetAuth(false);
          navigation, rejected := Some(LoginPath), false;
        case Err(_) =>
          navigation, rejected := None, true;
      }
    }
  }

  /** The todo page's logout as written, from a session the startup check
      accepted: the server logs out, the page navigates to `/login`, and the
      shell, still seeing `auth` true, sends it on to the user table. */
  method LogoutFromTodoAsWritten() returns (landing: Option<View>)
    ensures landing == Some(UserTableView)
  {
    var session := new AuthProvider();
    var _ := session.RunRefreshEffect();
    session.SettleRefresh(Ok(()));
    RouteAtTodo(true);
    assert Route(session.auth, session.loading, "/todo") == Render(TodoView);
    var page := new Todo(session);
    var _, navigation, _ := page.HandleLogout(Ok(()));
    SettleAtLogin(true, 4);
    landing := Settle(session.auth, session.loading, navigation.value, 4);
  }

  /** The same visit with the logout that clears `auth`: it lands on the
      login page. */
  method LogoutFromTodoCorrected() returns (landing: Option<View>)
    ensures landing == Some(LoginView)
  {
    var session := new AuthProvider();
    var _ := session.RunRefreshEffect();
    session.SettleRefresh(Ok(()));
    var page := new Todo(session);
    var _, navigation, _ := page.HandleLogoutClearingSession(Ok(()));
    SettleAtLogin(false, 4);
    landing := Settle(session.auth, session.loading, navigation.value, 4);
  }
}
