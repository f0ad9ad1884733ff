/**
 The components wired together as the application wires them: a form's
 callback is the page handler, whose `fetch` reaches the collection route.
 These lemmas follow one user action through all three layers.
 */
module Flows {

  import opened Text
  import opened Records
  import opened Store
  import opened Http
  import TodosApi
  import NotesApi
  import TodoPage
  import NotesPage
  import AddTodoForm
  import AddNoteForm
  import TodoItem
  import Sorting

  /** What `fetch` followed by `response.json()` yields for a single-record
      response: OK exactly for a 2xx status. */
  function RowReply<T>(resp: Response<T>): (r: Reply<T>)
    ensures r.Ok? <==> IsOk(resp.status) && resp.body.Row?
    ensures r.Ok? ==> r.value == resp.body.row
    ensures !r.Threw?
  {
    if IsOk(resp.status) && resp.body.Row? then Ok(resp.body.row) else NotOk
  }

  /** The same for a list response. */
  function ListReply<T>(resp: Response<T>): (r: Reply<seq<T>>)
    ensures r.Ok? <==> IsOk(resp.status) && resp.body.Rows?
    ensures r.Ok? ==> r.value == resp.body.rows
    ensures !r.Threw?
  {
    if IsOk(resp.status) && resp.body.Rows? then Ok(resp.body.rows) else NotOk
  }

  /** The initial load of the todo page shows the whole table newest first,
      and ends the loading state whatever the server answered. */
  lemma LoadTodosNewestFirst(db: Table<Todo>, env: StoreEnv)
    ensures var p := TodoPage.FetchTodos(TodoPage.Initial, ListReply(TodosApi.Handle("GET", TodosApi.TodoBody(Undefined, Undefined), db, env).response));
            && !p.isLoading && p.filter == TodoPage.All
            && (!env.fails ==> Sorting.SortedDesc(p.todos, TodoCreated) && multiset(p.todos) == multiset(db.rows))
            && (env.fails ==> p.todos == [])
  {
  }

  /** The same for the notes page. */
  lemma LoadNotesNewestFirst(db: Table<Note>, env: StoreEnv)
    ensures var p := NotesPage.FetchNotes(NotesPage.Initial, ListReply(NotesApi.Handle("GET", NotesApi.NoteBody(Undefined, Undefined, Undefined), db, env).response));
            && !p.isLoading && p.filter == NotesPage.All
            && (!env.fails ==> Sorting.SortedDesc(p.notes, NoteCreated) && multiset(p.notes) == multiset(db.rows))
            && (env.fails ==> p.notes == [])
  {
  }

  /** The todo form's guard and the route's guard agree on every string the
      form can send: the form submits exactly the titles the route accepts. */
  lemma TodoGuardsAgree(title: string)
    ensures AddTodoForm.SubmitEnabled(AddTodoForm.Form(title, "", false)) <==> !TodosApi.TitleMissing(Json.Str(title))
  {
    if title == [] {
      EmptyIsBlank();
    }
  }

  datatype TodoAddFlow = TodoAddFlow(form: AddTodoForm.Form, page: TodoPage.Page, db: Table<Todo>)

  /** A submit of the add-todo form, carried through the page's
      `handleAddTodo` to a POST on `/api/todos` and back. The page handler
      never rejects on an HTTP error, so the form is cleared even when the
      server created nothing. */
  function SubmitTodo(form: AddTodoForm.Form, page: TodoPage.Page, db: Table<Todo>, env: StoreEnv): (r: TodoAddFlow)
    ensures IsBlank(form.title) ==> r == TodoAddFlow(form, page, db)
    ensures !IsBlank(form.title) ==> r.form == AddTodoForm.Initial
    ensures !IsBlank(form.title) && !env.fails ==>
              && |r.page.todos| == |page.todos| + 1 && r.page.todos[1..] == page.todos
              && r.page.todos[0].id == db.nextId && r.page.todos[0].title == Trim(form.title)
              && !r.page.todos[0].completed && r.page.todos[0].createdAt == env.now
              && (r.page.todos[0].description.Some? <==> !IsBlank(form.description))
              && (!IsBlank(form.description) ==> r.page.todos[0].description == Some(Trim(form.description)))
              && r.db == Insert(db, r.page.todos[0])
              && r.page.isLoading == page.isLoading && r.page.filter == page.filter
    ensures env.fails ==> r.page == page && r.db == db
  {
    if IsBlank(form.title) then TodoAddFlow(form, page, db)
    else
      var h := TodosApi.Handle("POST", TodosApi.TodoBody(Json.Str(form.title), Json.Str(form.description)), db, env);
      var added := TodoPage.HandleAdd(page, RowReply(h.response));
      var run := AddTodoForm.Submit(form, added.outcome);
      TodoAddFlow(run.settled, added.state, h.db)
  }

  /** The server's failure is invisible in the form: with the store down, the
      typed title is cleared although no todo exists. */
  lemma FailedAddStillClearsForm(form: AddTodoForm.Form, page: TodoPage.Page, db: Table<Todo>, env: StoreEnv)
    requires !IsBlank(form.title) && env.fails
    ensures SubmitTodo(form, page, db, env) == TodoAddFlow(AddTodoForm.Initial, page, db)
  {
  }

  datatype SaveFlow = SaveFlow(item: TodoItem.Item, page: TodoPage.Page)

  /** Saving an edited todo through `handleUpdateTodo`: the row leaves edit
      mode unless `fetch` itself threw, so an HTTP error status exits edit
      mode while the list keeps the old record. */
  function SaveTodo(todo: Todo, item: TodoItem.Item, page: TodoPage.Page, reply: Reply<Todo>): (r: SaveFlow)
    ensures !IsBlank(item.editTitle) ==> (r.item.isEditing <==> reply.Threw? && item.isEditing)
    ensures |r.page.todos| == |page.todos|
    ensures !IsBlank(item.editTitle) && reply.Ok? ==>
              forall i :: 0 <= i < |page.todos| ==>
                r.page.todos[i] == (if page.todos[i].id == todo.id then reply.value else page.todos[i])
    ensures !IsBlank(item.editTitle) ==>
              !r.item.isLoading && r.item.editTitle == item.editTitle && r.item.editDescription == item.editDescription
    ensures !reply.Ok? ==> r.page == page
    ensures r.page.isLoading == page.isLoading && r.page.filter == page.filter
    ensures IsBlank(item.editTitle) ==> r == SaveFlow(item, page)
  {
    if IsBlank(item.editTitle) then SaveFlow(item, page)
    else
      var replaced := TodoPage.HandleReplace(page, todo.id, reply);
      SaveFlow(TodoItem.HandleSave(todo, item, replaced.outcome).settled, replaced.state)
  }

  datatype NoteAddFlow = NoteAddFlow(form: AddNoteForm.Form, page: NotesPage.Page, db: Table<Note>)

  /** A submit of the add-note form, carried through `handleAddNote` to a
      POST on `/api/notes` and back. A refused submit changes nothing; the
      lemmas below follow an accepted one. */
  function SubmitNote(form: AddNoteForm.Form, page: NotesPage.Page, db: Table<Note>, env: StoreEnv): (r: NoteAddFlow)
    ensures IsBlank(form.title) || IsBlank(form.content) ==> r == NoteAddFlow(form, page, db)
  {
    if IsBlank(form.title) || IsBlank(form.content) then NoteAddFlow(form, page, db)
    else
      var step := AddNoteForm.Submit(form);
      var call := step.call.value;
      var body := NotesApi.NoteBody(Json.Str(call.title), Json.Str(call.content), Json.Str(TypeName(call.kind)));
      var h := NotesApi.Handle("POST", body, db, env);
      NoteAddFlow(step.state, NotesPage.HandleAdd(page, RowReply(h.response)), h.db)
  }

  /** An accepted submit resets the form whatever the server answers: the
      form does not wait for the request. */
  lemma SubmitNoteResetsForm(form: AddNoteForm.Form, page: NotesPage.Page, db: Table<Note>, env: StoreEnv)
    requires !IsBlank(form.title) && !IsBlank(form.content)
    ensures SubmitNote(form, page, db, env).form == AddNoteForm.Initial
  {
  }

  /** With the store up, an accepted submit puts the same note at the head of
      the page and at the end of the table: the typed title and content
      verbatim, the selected type's wire name, the fresh key. */
  lemma SubmitNoteCreates(form: AddNoteForm.Form, page: NotesPage.Page, db: Table<Note>, env: StoreEnv)
    requires !IsBlank(form.title) && !IsBlank(form.content) && !env.fails
    ensures var r := SubmitNote(form, page, db, env);
            var n := Note(db.nextId, form.title, form.content, TypeName(form.kind), env.now, env.now);
            r.page == page.(notes := [n] + page.notes) && r.db == Insert(db, n)
  {
    EmptyIsBlank();
    NotesApi.PostOfStrings(form.title, form.content, TypeName(form.kind), db, env);
  }

  /** With the store down, a submit changes neither the page nor the table. */
  lemma SubmitNoteStoreDown(form: AddNoteForm.Form, page: NotesPage.Page, db: Table<Note>, env: StoreEnv)
    requires env.fails
    ensures var r := SubmitNote(form, page, db, env);
            r.page == page && r.db == db
  {
    if !IsBlank(form.title) && !IsBlank(form.content) {
      EmptyIsBlank();
      NotesApi.PostOfStrings(form.title, form.content, TypeName(form.kind), db, env);
    }
  }

  /** Notes created through the form always carry one of the three client
      types, so on a page whose notes all came from the form the per-type
      stats add up to the total. */
  lemma {:induction false} FormNotesKeepCountsExact(form: AddNoteForm.Form, page: NotesPage.Page, db: Table<Note>, env: StoreEnv)
    requires NotesPage.AllKnownTypes(page.notes)
    ensures var p := SubmitNote(form, page, db, env).page;
            NotesPage.TypeTotal(p.notes) == |p.notes|
  {
    var p := SubmitNote(form, page, db, env).page;
    if !IsBlank(form.title) && !IsBlank(form.content) {
      if env.fails {
        SubmitNoteStoreDown(form, page, db, env);
      } else {
        SubmitNoteCreates(form, page, db, env);
        NotesPage.PrependKeepsKnown(Note(db.nextId, form.title, form.content, TypeName(form.kind), env.now, env.now), page.notes);
      }
    }
    NotesPage.TypeCountsCover(p.notes);
  }

  /** The note form is stricter than the route it calls: every note the form
      sends passes the route's presence check (while the route alone accepts
      the whitespace title that `AddNoteForm.WhitespaceTitleRefused` shows the
      form refusing). */
  lemma NoteFormStricterThanRoute(form: AddNoteForm.Form, db: Table<Note>, env: StoreEnv)
    requires AddNoteForm.Submit(form).call.Some?
    ensures NotesApi.Handle("POST", NotesApi.NoteBody(Json.Str(form.title), Json.Str(form.content), Json.Str(TypeName(form.kind))), db, env).response.status != 400
  {
    assert !IsBlank(form.title) && !IsBlank(form.content);
    EmptyIsBlank();
    assert Truthy(Json.Str(form.title)) && Truthy(Json.Str(form.content));
  }
}
