/**
 The todo screen (src/projects/TodoApp.tsx): the in-memory list of todos and
 how each REST handler reconciles it with the outcome of its request. Every
 handler is one atomic step from a view to a view, plus the request it sends.
 */
module Todos {
  import opened Js
  import opened Http
  import opened Seqs

  const PendingStatus: string := "pending"
  const DoneStatus: string := "done"

  /** A todo as the server represents it. The status is whatever string the
      server sent; the screen expects `"pending"` or `"done"`. */
  datatype Todo = Todo(todoId: string, userId: string, task: string, status: string, createdAt: string)

  /** The component state the handlers touch: the list, the text of the
      add-task input, the loading flag and the error banner. */
  datatype TodoView = TodoView(todos: seq<Todo>, draft: string, loading: bool, error: string)

  /** The request a handler sends. */
  datatype Request =
    | ListTodos                                   // GET /todos
    | CreateTodo(task: string)                    // POST /todos with {task}
    | UpdateStatus(todoId: string, status: string) // PUT /todos/{id} with {status}
    | RemoveTodo(todoId: string)                  // DELETE /todos/{id}

  /** One handler run: the view afterwards and the request it sent, if any. */
  datatype Step = Step(view: TodoView, sent: Option<Request>)

  /** What the list handler reads from a non-ok response: the `error` field of a
      JSON body ("" when missing or falsy), or, when reading JSON threw, the
      outcome of reading the body as text. */
  datatype ErrorBody = JsonError(errorField: string) | NotJson(text: Read<string>)

  const NoTokenMessage: string := "No authentication token found. Please login again."

  predicate ValidStatus(s: string)
  {
    s == PendingStatus || s == DoneStatus
  }

  /** `!token` is false: a token is present and not empty. */
  predicate HasToken(token: Option<string>)
  {
    token.Some? && Truthy(token.value)
  }

  /** The status the toggle button requests: `"done"` for `"pending"`, `"pending"` for anything else. */
  function Flip(current: string): (r: string)
    ensures ValidStatus(r)
    ensures r == DoneStatus <==> current == PendingStatus
  {
    if current == PendingStatus then DoneStatus else PendingStatus
  }

  /** Flipping twice returns a valid status to itself, and flipping always changes it. */
  lemma FlipInvolution(s: string)
    requires ValidStatus(s)
    ensures Flip(Flip(s)) == s
    ensures Flip(s) != s
  {
  }

  /** The message the list handler shows for a non-ok response: the server's
      own text when it sent a non-empty one, `HTTP error: <status>` when it did
      not, and the thrown error's message when reading the body failed. */
  function FetchFailureMessage(status: nat, body: ErrorBody): (r: string)
    ensures body.JsonError? ==>
              (r == body.errorField && r != "") || (body.errorField == "" && r == HttpError(status))
    ensures body.NotJson? && body.text.Parsed? ==>
              (r == body.text.value && r != "") || (body.text.value == "" && r == HttpError(status))
    ensures body.NotJson? && body.text.ReadFailed? ==>
              r == (if body.text.thrown.ErrorObject? then body.text.thrown.message else "Failed to fetch todos")
  {
    match body
    case JsonError(field) => Or(field, HttpError(status))
    case NotJson(Parsed(text)) => Or(text, HttpError(status))
    case NotJson(ReadFailed(t)) => MessageOf(t, "Failed to fetch todos")
  }

  /** The list handler's message for a non-ok response is empty only when
      reading the body threw an error with an empty message. */
  lemma FetchFailureMessageCases(status: nat, body: ErrorBody)
    ensures FetchFailureMessage(status, body) == "" <==>
      body.NotJson? && body.text.ReadFailed? && body.text.thrown == ErrorObject("")
  {
  }

  /** What a browser hands the list handler for a non-ok response with body
      `text`. `json` is the `error` field (`""` when missing or falsy) when
      `response.json()` and the field read succeed, and `None` when they throw.
      Reading the body as JSON consumes it, so by the Fetch standard the
      `response.text()` that follows a failed `json()` rejects with the
      body-already-used `TypeError`, here `used`, whatever `text` is. */
  function BrowserErrorBody(text: string, json: Option<string>, used: Thrown): ErrorBody
  {
    match json
    case Some(field) => JsonError(field)
    case None => NotJson(ReadFailed(used))
  }

  /** As written, the text of a body that is not JSON never reaches the banner:
      two such bodies give the same message, and for a `502` whose body is
      `Bad Gateway` the banner shows the body-already-used error instead. */
  lemma BodyTextNeverShown(status: nat, text1: string, text2: string, used: Thrown)
    ensures FetchFailureMessage(status, BrowserErrorBody(text1, None, used))
         == FetchFailureMessage(status, BrowserErrorBody(text2, None, used))
    ensures var m := "body stream already read";
            FetchFailureMessage(502, BrowserErrorBody("Bad Gateway", None, ErrorObject(m))) == m != "Bad Gateway"
  {
  }

  /** The message as evidently intended: the body is read once as text, its
      JSON `error` field is used when it is a JSON object and the text itself
      when it is not, with `HTTP error: <status>` when either is empty. */
  function IntendedFailureMessage(status: nat, text: string, json: Option<string>): (r: string)
    ensures Truthy(r)
    ensures json.None? ==> (r == text && text != "") || (text == "" && r == HttpError(status))
  {
    match json
    case Some(field) => FetchFailureMessage(status, JsonError(field))
    case None => FetchFailureMessage(status, NotJson(Parsed(text)))
  }

  /** The intended message agrees with the code as written whenever the body is
      JSON, and shows a non-empty body that is not JSON, which the code as
      written never does. */
  lemma IntendedMessageShowsBody(status: nat, text: string, json: Option<string>, used: Thrown)
    ensures json.Some? ==>
              IntendedFailureMessage(status, text, json) == FetchFailureMessage(status, BrowserErrorBody(text, json, used))
    ensures json.None? && text != "" ==> IntendedFailureMessage(status, text, json) == text
  {
  }

  /** `fetchTodos` (loading is set on entry and cleared on exit). */
  function FetchTodos(v: TodoView, token: Option<string>, reply: Reply<ErrorBody, Read<seq<Todo>>>): (r: Step)
    ensures !HasToken(token) ==> r.sent.None? && r.view == v.(error := NoTokenMessage)
    ensures HasToken(token) ==> r.sent == Some(ListTodos) && !r.view.loading && r.view.draft == v.draft
    ensures HasToken(token) && reply.Ok? && reply.payload.Parsed? ==>
              r.view.todos == reply.payload.value && r.view.error == ""
    ensures !(reply.Ok? && reply.payload.Parsed?) ==> r.view.todos == v.todos
    ensures HasToken(token) && reply.NotOk? ==> r.view.error == FetchFailureMessage(reply.status, reply.body)
    ensures HasToken(token) && reply.Rejected? ==> r.view.error == MessageOf(reply.thrown, "Failed to fetch todos")
    ensures HasToken(token) && reply.Ok? && reply.payload.ReadFailed? ==>
              r.view.error == MessageOf(reply.payload.thrown, "Failed to fetch todos")
  {
    if !HasToken(token) then
      Step(v.(error := NoTokenMessage), None)
    else
      var done := v.(loading := false);
      var view :=
        match reply
        case Ok(Parsed(data)) => done.(todos := data, error := "")
        case Ok(ReadFailed(t)) => done.(error := MessageOf(t, "Failed to fetch todos"))
        case Rejected(t) => done.(error := MessageOf(t, "Failed to fetch todos"))
        case NotOk(status, body) => done.(error := FetchFailureMessage(status, body));
      Step(view, Some(ListTodos))
  }

  /** `addTodo`: appends the created todo the server returns. */
  function AddTodo(v: TodoView, token: Option<string>, reply: Reply<(), Read<Todo>>): (r: Step)
    ensures AllWhitespace(v.draft) || !HasToken(token) <==> r.sent.None?
    ensures r.sent.None? ==> r.view == v
    ensures r.sent.Some? ==> r.sent == Some(CreateTodo(Trim(v.draft)))
                             && Truthy(Trim(v.draft)) && r.view.loading == v.loading
    ensures r.sent.Some? && reply.Ok? && reply.payload.Parsed? ==>
              r.view == v.(todos := v.todos + [reply.payload.value], draft := "", error := "")
    ensures r.sent.Some? && !(reply.Ok? && reply.payload.Parsed?) ==>
              r.view == v.(error := r.view.error)
    ensures r.sent.Some? && reply.NotOk? ==> r.view.error == StatusMessage("Failed to add todo", reply.status)
    ensures r.sent.Some? && reply.Rejected? ==> r.view.error == MessageOf(reply.thrown, "Failed to add todo")
    ensures r.sent.Some? && reply.Ok? && reply.payload.ReadFailed? ==>
              r.view.error == MessageOf(reply.payload.thrown, "Failed to add todo")
  {
    var task := Trim(v.draft);
    TrimEmptyIffBlank(v.draft);
    if task == "" || !HasToken(token) then
      Step(v, None)
    else
      var view :=
        match reply
        case Ok(Parsed(item)) => v.(todos := v.todos + [item], draft := "", error := "")
        case Ok(ReadFailed(t)) => v.(error := MessageOf(t, "Failed to add todo"))
        case Rejected(t) => v.(error := MessageOf(t, "Failed to add todo"))
        case NotOk(status, _) => v.(error := StatusMessage("Failed to add todo", status));
      Step(view, Some(CreateTodo(task)))
  }

  /** The list after a successful update: the todos with the id get the new
      status; ids, order and every other field stay as they were. */
  function SetStatus(todos: seq<Todo>, todoId: string, status: string): (r: seq<Todo>)
    ensures |r| == |todos|
    ensures forall i :: 0 <= i < |r| ==> r[i].(status := todos[i].status) == todos[i]
    ensures forall i :: 0 <= i < |r| ==> r[i].status == (if todos[i].todoId == todoId then status else todos[i].status)
  {
    seq(|todos|, i requires 0 <= i < |todos| =>
      if todos[i].todoId == todoId then todos[i].(status := status) else todos[i])
  }

  /** Updating an id that is not in the list changes nothing. */
  lemma SetStatusAbsent(todos: seq<Todo>, todoId: string, status: string)
    requires forall i :: 0 <= i < |todos| ==> todos[i].todoId != todoId
    ensures SetStatus(todos, todoId, status) == todos
  {
  }

  /** `toggleTodo(todoId, currentStatus)` */
  function ToggleTodo(v: TodoView, token: Option<string>, todoId: string, currentStatus: string,
                      reply: Reply<(), ()>): (r: Step)
    ensures !HasToken(token) <==> r.sent.None?
    ensures r.sent.None? ==> r.view == v
    ensures r.sent.Some? ==> r.sent == Some(UpdateStatus(todoId, Flip(currentStatus)))
    ensures r.sent.Some? && reply.Ok? ==>
              r.view == v.(todos := SetStatus(v.todos, todoId, Flip(currentStatus)), error := "")
    ensures !reply.Ok? ==> r.view == v.(error := r.view.error)
    ensures r.sent.Some? && reply.NotOk? ==> r.view.error == StatusMessage("Failed to update todo", reply.status)
    ensures r.sent.Some? && reply.Rejected? ==> r.view.error == MessageOf(reply.thrown, "Failed to update todo")
  {
    if !HasToken(token) then
      Step(v, None)
    else
      var next := Flip(currentStatus);
      var view :=
        match reply
        case Ok(_) => v.(todos := SetStatus(v.todos, todoId, next), error := "")
        case Rejected(t) => v.(error := MessageOf(t, "Failed to update todo"))
        case NotOk(status, _) => v.(error := StatusMessage("Failed to update todo", status));
      Step(view, Some(UpdateStatus(todoId, next)))
  }

  /** The filter that keeps the todos whose id differs from `todoId`. */
  function Other(todoId: string): Todo -> bool
  {
    (t: Todo) => t.todoId != todoId
  }

  /** The filter that keeps the todos whose id is `todoId`. */
  function HasId(todoId: string): Todo -> bool
  {
    (t: Todo) => t.todoId == todoId
  }

  /** The list after a successful delete: every copy of every todo with another
      id stays, and only the todos with the deleted id go. */
  function WithoutId(todos: seq<Todo>, todoId: string): (r: seq<Todo>)
    ensures forall t :: t in r <==> t in todos && t.todoId != todoId
    ensures multiset(r) + multiset(Filter(todos, HasId(todoId))) == multiset(todos)
    ensures |r| + |Filter(todos, HasId(todoId))| == |todos|
  {
    FilterPartition(todos, Other(todoId), HasId(todoId));
    Filter(todos, Other(todoId))
  }

  /** Delete keeps the other todos in their original relative order, and deleting an absent id changes nothing. */
  lemma WithoutIdKeepsOrder(todos: seq<Todo>, todoId: string)
    ensures IsSubseq(WithoutId(todos, todoId), todos)
    ensures (forall i :: 0 <= i < |todos| ==> todos[i].todoId != todoId) ==> WithoutId(todos, todoId) == todos
    ensures WithoutId(WithoutId(todos, todoId), todoId) == WithoutId(todos, todoId)
  {
    FilterIsSubseq(todos, Other(todoId));
    FilterIdempotent(todos, Other(todoId));
    if forall i :: 0 <= i < |todos| ==> todos[i].todoId != todoId {
      FilterKeepsAll(todos, Other(todoId));
    }
  }

  /** `deleteTodo(todoId)` */
  function DeleteTodo(v: TodoView, token: Option<string>, todoId: string, reply: Reply<(), ()>): (r: Step)
    ensures !HasToken(token) <==> r.sent.None?
    ensures r.sent.None? ==> r.view == v
    ensures r.sent.Some? ==> r.sent == Some(RemoveTodo(todoId))
    ensures r.sent.Some? && reply.Ok? ==> r.view == v.(todos := WithoutId(v.todos, todoId), error := "")
    ensures !reply.Ok? ==> r.view == v.(error := r.view.error)
    ensures r.sent.Some? && reply.NotOk? ==> r.view.error == StatusMessage("Failed to delete todo", reply.status)
    ensures r.sent.Some? && reply.Rejected? ==> r.view.error == MessageOf(reply.thrown, "Failed to delete todo")
  {
    if !HasToken(token) then
      Step(v, None)
    else
      var view :=
        match reply
        case Ok(_) => v.(todos := WithoutId(v.todos, todoId), error := "")
        case Rejected(t) => v.(error := MessageOf(t, "Failed to delete todo"))
        case NotOk(status, _) => v.(error := StatusMessage("Failed to delete todo", status));
      Step(view, Some(RemoveTodo(todoId)))
  }

  /** A request the server refused never touches the list, and always leaves a
      non-empty error naming the operation. */
  lemma RefusedRequestKeepsList(v: TodoView, token: Option<string>, todoId: string, currentStatus: string, status: nat)
    requires HasToken(token)
    ensures var r := AddTodo(v, token, NotOk(status, ()));
            r.view.todos == v.todos && (r.sent.Some? ==> Truthy(r.view.error))
    ensures var r := ToggleTodo(v, token, todoId, currentStatus, NotOk(status, ()));
            r.view.todos == v.todos && Truthy(r.view.error)
    ensures var r := DeleteTodo(v, token, todoId, NotOk(status, ()));
            r.view.todos == v.todos && Truthy(r.view.error)
  {
  }

  predicate IsPending(t: Todo)
  {
    t.status == PendingStatus
  }

  predicate IsDone(t: Todo)
  {
    t.status == DoneStatus
  }

  /** The "Pending Tasks" list: the todos whose status is exactly `"pending"`. */
  function PendingTodos(todos: seq<Todo>): (r: seq<Todo>)
    ensures |r| <= |todos|
    ensures forall t :: t in r <==> t in todos && t.status == PendingStatus
  {
    Filter(todos, IsPending)
  }

  /** The "Completed Tasks" list: the todos whose status is exactly `"done"`. */
  function CompletedTodos(todos: seq<Todo>): (r: seq<Todo>)
    ensures |r| <= |todos|
    ensures forall t :: t in r <==> t in todos && t.status == DoneStatus
  {
    Filter(todos, IsDone)
  }

  predicate AllValid(todos: seq<Todo>)
  {
    forall i :: 0 <= i < |todos| ==> ValidStatus(todos[i].status)
  }

  /** Every todo with a valid status is shown in exactly one of the two lists,
      each list keeps the original order, and a todo with any other status is in neither. */
  lemma ViewsPartition(todos: seq<Todo>)
    ensures IsSubseq(PendingTodos(todos), todos) && IsSubseq(CompletedTodos(todos), todos)
    ensures forall t :: t in todos && !ValidStatus(t.status) ==> t !in PendingTodos(todos) && t !in CompletedTodos(todos)
    ensures AllValid(todos) ==>
              && multiset(PendingTodos(todos)) + multiset(CompletedTodos(todos)) == multiset(todos)
              && |PendingTodos(todos)| + |CompletedTodos(todos)| == |todos|
  {
    FilterIsSubseq(todos, IsPending);
    FilterIsSubseq(todos, IsDone);
    if AllValid(todos) {
      FilterPartition(todos, IsPending, IsDone);
    }
  }

  /** Ids are unique within the list. */
  predicate UniqueIds(todos: seq<Todo>)
  {
    forall i, j :: 0 <= i < j < |todos| ==> todos[i].todoId != todos[j].todoId
  }

  /** Toggling a pending todo (with a unique id) moves it from the pending list
      to the completed list and leaves every other todo where it was. */
  lemma {:induction false} ToggleMovesBetweenViews(todos: seq<Todo>, k: nat)
    requires k < |todos| && UniqueIds(todos) && todos[k].status == PendingStatus
    ensures var r := SetStatus(todos, todos[k].todoId, Flip(todos[k].status));
            && |PendingTodos(r)| == |PendingTodos(todos)| - 1
            && |CompletedTodos(r)| == |CompletedTodos(todos)| + 1
  {
    var id := todos[k].todoId;
    var r := SetStatus(todos, id, DoneStatus);
    if k == 0 {
      assert r[1..] == SetStatus(todos[1..], id, DoneStatus);
      SetStatusAbsent(todos[1..], id, DoneStatus);
    } else {
      assert UniqueIds(todos[1..]);
      assert todos[1..][k - 1] == todos[k];
      ToggleMovesBetweenViews(todos[1..], k - 1);
      assert r[1..] == SetStatus(todos[1..], id, DoneStatus);
      assert r[0] == todos[0];
    }
  }

  /** Successful handlers keep ids unique: toggle and delete always, add when the created id is fresh. */
  lemma HandlersKeepIdsUnique(todos: seq<Todo>, todoId: string, status: string, item: Todo)
    requires UniqueIds(todos)
    ensures UniqueIds(SetStatus(todos, todoId, status))
    ensures UniqueIds(todos + [item]) <==> forall i :: 0 <= i < |todos| ==> todos[i].todoId != item.todoId
    ensures UniqueIds(WithoutId(todos, todoId))
  {
    UniqueIdsFilter(todos, Other(todoId));
    var a := todos + [item];
    if UniqueIds(a) {
      forall i | 0 <= i < |todos| ensures todos[i].todoId != item.todoId {
        assert a[i] == todos[i] && a[|todos|] == item;
      }
    }
  }

  lemma {:induction false} UniqueIdsFilter(todos: seq<Todo>, keep: Todo -> bool)
    requires UniqueIds(todos)
    ensures UniqueIds(Filter(todos, keep))
  {
    if |todos| > 0 {
      UniqueIdsFilter(todos[1..], keep);
      var rest := Filter(todos[1..], keep);
      forall t | t in rest ensures t.todoId != todos[0].todoId {
        var j :| 0 <= j < |todos[1..]| && todos[1..][j] == t;
        assert todos[j + 1] == t;
      }
    }
  }
}
