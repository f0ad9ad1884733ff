/**
 The collection route for todos, `/api/todos`: GET lists every todo newest
 first, POST creates one from `{ title, description }`, and every other
 method is refused with 405. A thrown error anywhere inside the handler's
 `try` becomes 500.
 */
module TodosApi {

  import opened Text
  import opened Records
  import opened Store
  import opened Http
  import Sorting

  /** The two fields POST destructures from the request body. */
  datatype TodoBody = TodoBody(title: Json, description: Json)

  /** The result of evaluating a JavaScript expression that may throw. */
  datatype Eval<T> = Value(v: T) | TypeError

  /** `description?.trim() || null`: absent or blank gives `null`; any other
      non-string value has no `trim` method and throws. */
  function StoredDescription(d: Json): (r: Eval<Option<string>>)
    ensures r.TypeError? <==> d.Other?
    ensures r.Value? && r.v.Some? ==> d.Str? && r.v.value == Trim(d.s)
    ensures r.Value? && r.v.Some? ==> IsTrimmed(r.v.value) && r.v.value != []
    ensures r.Value? && r.v.None? ==> !d.Str? || IsBlank(d.s)
  {
    match d
    case Undefined => Value(None)
    case Null => Value(None)
    case Str(s) => if Trim(s) == [] then Value(None) else Value(Some(Trim(s)))
    case Other(_) => TypeError
  }

  function BadRequest(db: Table<Todo>): Handled<Todo> {
    Handled(Response(400, [], ErrorJson("Title is required")), db)
  }

  function ServerError(db: Table<Todo>): Handled<Todo> {
    Handled(Response(500, [], ErrorJson("Internal server error")), db)
  }

  /** The title guard `!title || title.trim() === ''`. */
  predicate TitleMissing(title: Json)
    // A string title is missing exactly when it trims to the empty string;
    // any other value exactly when it is falsy.
    ensures title.Str? ==> (TitleMissing(title) <==> Trim(title.s) == [])
    ensures !title.Str? ==> (TitleMissing(title) <==> !Truthy(title))
  {
    !Truthy(title) || (title.Str? && IsBlank(title.s))
  }

  /** The whole handler. */
  function Handle(verb: string, body: TodoBody, db: Table<Todo>, env: StoreEnv): (h: Handled<Todo>)
    // The status is always one of the five the route uses, and only a 201 touches the table.
    ensures h.response.status in {200, 201, 400, 405, 500}
    ensures h.response.status != 201 ==> h.db == db
    // GET lists the table newest first and changes nothing.
    ensures verb == "GET" && !env.fails ==>
              && h.response.status == 200 && h.response.body.Rows?
              && Sorting.SortedDesc(h.response.body.rows, TodoCreated)
              && multiset(h.response.body.rows) == multiset(db.rows)
    ensures h.response.status == 200 ==> verb == "GET" && !env.fails
    // POST with a missing or blank title is a 400.
    ensures verb == "POST" ==> (h.response.status == 400 <==> TitleMissing(body.title))
    // A created todo has the trimmed title, the normalised description, is not
    // completed, takes the fresh key, and is the one row added.
    ensures h.response.status == 201 ==>
              && verb == "POST" && !env.fails
              && body.title.Str? && h.response.body.Row?
              && (var t := h.response.body.row;
                  && t.title == Trim(body.title.s) && t.title != [] && IsTrimmed(t.title)
                  && StoredDescription(body.description) == Value(t.description)
                  && !t.completed && t.id == db.nextId && t.createdAt == env.now
                  && h.db == Insert(db, t))
    ensures (verb == "POST" && !TitleMissing(body.title) && body.title.Str?
             && !body.description.Other? && !env.fails) ==> h.response.status == 201
    // The only 500s: a store failure, or a non-string field whose `trim` throws.
    ensures h.response.status == 500 <==>
              || ((verb == "GET" || verb == "POST") && env.fails && !(verb == "POST" && TitleMissing(body.title)))
              || (verb == "POST" && !TitleMissing(body.title) && (!body.title.Str? || body.description.Other?))
    // Everything else is 405 and advertises GET and POST.
    ensures h.response.status == 405 <==> verb != "GET" && verb != "POST"
    ensures h.response.status == 405 ==> h.response.allow == Allowed
    ensures h.response.status != 405 ==> h.response.allow == []
  {
    if verb == "GET" then
      if env.fails then ServerError(db)
      else Handled(Response(200, [], Rows(Sorting.SortDesc(db.rows, TodoCreated))), db)
    else if verb == "POST" then
      if !Truthy(body.title) then BadRequest(db)
      else
        match body.title
        case Str(title) =>
          if Trim(title) == [] then BadRequest(db)
          else
            (match StoredDescription(body.description)
             case TypeError => ServerError(db)
             case Value(description) =>
               if env.fails then ServerError(db)
               else
                 var todo := Todo(db.nextId, Trim(title), description, false, env.now);
                 Handled(Response(201, [], Row(todo)), Insert(db, todo)))
        case _ => ServerError(db)
    else
      Handled(Response(405, Allowed, ErrorJson("Method " + verb + " not allowed")), db)
  }

  /** Every todo the route creates keeps the table's keys distinct and fresh,
      so a sequence of POSTs never reuses an id. */
  lemma HandleKeepsKeys(verb: string, body: TodoBody, db: Table<Todo>, env: StoreEnv)
    requires WellKeyed(db, TodoId)
    ensures WellKeyed(Handle(verb, body, db, env).db, TodoId)
  {
    var h := Handle(verb, body, db, env);
    if h.response.status == 201 {
      InsertKeepsKeys(db, h.response.body.row, TodoId);
    }
  }

  /** Every row the route ever stores has a non-empty trimmed title and a
      description that is either `null` or non-empty and trimmed. */
  predicate ValidTodo(t: Todo) {
    && t.title != [] && IsTrimmed(t.title)
    && (t.description.Some? ==> t.description.value != [] && IsTrimmed(t.description.value))
  }

  predicate AllValid(db: Table<Todo>) {
    forall i :: 0 <= i < |db.rows| ==> ValidTodo(db.rows[i])
  }

  lemma HandleKeepsValid(verb: string, body: TodoBody, db: Table<Todo>, env: StoreEnv)
    requires AllValid(db)
    ensures AllValid(Handle(verb, body, db, env).db)
  {
    var h := Handle(verb, body, db, env);
    if h.response.status == 201 {
      var t := h.response.body.row;
      assert ValidTodo(t);
      assert h.db.rows == db.rows + [t];
      forall i | 0 <= i < |h.db.rows|
        ensures ValidTodo(h.db.rows[i])
      {
        if i < |db.rows| {
          assert h.db.rows[i] == db.rows[i];
        }
      }
    }
  }
}
