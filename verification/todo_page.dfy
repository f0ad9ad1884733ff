/**
 The todo list page: its cached list, the loading flag, the active filter,
 the handlers that call the API and reconcile the list, and the derived
 view and counters.
 */
module TodoPage {

  import opened Records
  import Seqs
  import Reconcile

  datatype Filter = All | Active | Completed

  datatype Page = Page(todos: seq<Todo>, isLoading: bool, filter: Filter)

  /** The page as first rendered, before the initial fetch settles. */
  const Initial: Page := Page([], true, All)

  /** `fetchTodos`: an OK response replaces the list; anything else keeps it,
      and the loading flag drops whatever happened. */
  function FetchTodos(p: Page, reply: Reply<seq<Todo>>): (r: Page)
    ensures !r.isLoading && r.filter == p.filter
    ensures reply.Ok? ==> r.todos == reply.value
    ensures !reply.Ok? ==> r.todos == p.todos
  {
    match reply
    case Ok(data) => p.(todos := data, isLoading := false)
    case _ => p.(isLoading := false)
  }

  /** How an un-caught fetch settles the handler's promise: only a thrown
      error rejects it; a non-OK status resolves it. */
  function OutcomeOf<T>(reply: Reply<T>): (o: Outcome)
    ensures o == Rejected <==> reply.Threw?
  {
    if reply.Threw? then Rejected else Resolved
  }

  /** `handleAddTodo`: an OK response prepends the created todo. */
  function HandleAdd(p: Page, reply: Reply<Todo>): (r: Settled<Page>)
    ensures reply.Ok? ==> |r.state.todos| == |p.todos| + 1
                          && r.state.todos[0] == reply.value && r.state.todos[1..] == p.todos
    ensures !reply.Ok? ==> r.state == p
    ensures r.state.isLoading == p.isLoading && r.state.filter == p.filter
    ensures r.outcome == Rejected <==> reply.Threw?
  {
    match reply
    case Ok(todo) => Settled(p.(todos := Reconcile.Prepend(p.todos, todo)), Resolved)
    case _ => Settled(p, OutcomeOf(reply))
  }

  /** `handleToggleTodo` and `handleUpdateTodo`: both send a PUT for `id` and,
      on an OK response, swap in the returned todo wherever the id matches.
      They differ only in the request body they send. */
  function HandleReplace(p: Page, id: int, reply: Reply<Todo>): (r: Settled<Page>)
    ensures |r.state.todos| == |p.todos|
    ensures reply.Ok? ==> forall i :: 0 <= i < |p.todos| ==>
              r.state.todos[i] == (if p.todos[i].id == id then reply.value else p.todos[i])
    ensures !reply.Ok? ==> r.state == p
    ensures r.state.isLoading == p.isLoading && r.state.filter == p.filter
    ensures r.outcome == Rejected <==> reply.Threw?
  {
    match reply
    case Ok(todo) => Settled(p.(todos := Reconcile.ReplaceById(p.todos, TodoId, id, todo)), Resolved)
    case _ => Settled(p, OutcomeOf(reply))
  }

  /** `handleDeleteTodo`: an OK response filters the id out. */
  function HandleDelete(p: Page, id: int, reply: Reply<()>): (r: Settled<Page>)
    ensures reply.Ok? ==> (forall t :: t in r.state.todos <==> t in p.todos && t.id != id)
                          && Seqs.IsSubseq(r.state.todos, p.todos)
                          && |r.state.todos| + Seqs.Count(p.todos, Reconcile.WithKey(TodoId, id)) == |p.todos|
    ensures !reply.Ok? ==> r.state == p
    ensures r.state.isLoading == p.isLoading && r.state.filter == p.filter
    ensures r.outcome == Rejected <==> reply.Threw?
  {
    match reply
    case Ok(_) => Settled(p.(todos := Reconcile.RemoveById(p.todos, TodoId, id)), Resolved)
    case _ => Settled(p, OutcomeOf(reply))
  }

  function SetFilter(p: Page, f: Filter): (r: Page)
    ensures r.filter == f && r.todos == p.todos && r.isLoading == p.isLoading
  {
    p.(filter := f)
  }

  predicate IsActive(t: Todo) { !t.completed }
  predicate IsCompleted(t: Todo) { t.completed }

  /** The predicate each filter button selects. */
  function Selects(f: Filter): Todo -> bool {
    match f
    case All => (t: Todo) => true
    case Active => IsActive
    case Completed => IsCompleted
  }

  /** `filteredTodos`: the todos the list shows, in list order. */
  function Visible(todos: seq<Todo>, f: Filter): (r: seq<Todo>)
    ensures Seqs.IsSubseq(r, todos)
    ensures f == Active ==> forall t :: t in r <==> t in todos && !t.completed
    ensures f == Completed ==> forall t :: t in r <==> t in todos && t.completed
    ensures f == All ==> r == todos
  {
    var r := Seqs.Filter(todos, Selects(f));
    if f == All then
      Seqs.FilterKeepsAll(todos, Selects(All));
      r
    else
      r
  }

  /** `activeCount`: positive exactly when some todo is not completed. */
  function ActiveCount(todos: seq<Todo>): (r: nat)
    ensures r <= |todos|
    ensures r > 0 <==> exists t :: t in todos && !t.completed
  {
    var v := Seqs.Filter(todos, IsActive);
    assert v != [] ==> v[0] in v;
    |v|
  }

  /** `completedCount`: positive exactly when some todo is completed. */
  function CompletedCount(todos: seq<Todo>): (r: nat)
    ensures r <= |todos|
    ensures r > 0 <==> exists t :: t in todos && t.completed
  {
    var v := Seqs.Filter(todos, IsCompleted);
    assert v != [] ==> v[0] in v;
    |v|
  }

  /** The Active and Completed stats add up to the Total stat. */
  lemma CountsAddUp(todos: seq<Todo>)
    ensures ActiveCount(todos) + CompletedCount(todos) == |todos|
  {
    Seqs.FilterPartition(todos, IsActive, IsCompleted);
  }

  /** Each stat counts exactly what the matching filter shows. */
  lemma CountsMatchViews(todos: seq<Todo>)
    ensures |Visible(todos, Active)| == ActiveCount(todos)
    ensures |Visible(todos, Completed)| == CompletedCount(todos)
    ensures |Visible(todos, All)| == |todos|
  {
  }

  /** A successful delete after a successful add of a todo with a fresh id
      restores the list the page had before the add. */
  lemma DeleteUndoesAdd(p: Page, todo: Todo)
    requires todo.id !in Reconcile.Keys(p.todos, TodoId)
    ensures var added := HandleAdd(p, Ok(todo)).state;
            HandleDelete(added, todo.id, Ok(())).state == p
  {
    Reconcile.RemoveUndoesPrepend(p.todos, TodoId, todo);
  }
}
