/**
 The collection route for notes, `/api/notes`: GET lists every note newest
 first, POST creates one from `{ title, content, type }`, and every other
 method is refused with 405. Unlike the todo route, POST only checks that
 title and content are truthy: nothing is trimmed and `type` is not checked
 against the three client values.
 */
module NotesApi {

  import opened Records
  import opened Store
  import opened Http
  import Sorting

  /** The three fields POST destructures from the request body. */
  datatype NoteBody = NoteBody(title: Json, content: Json, noteType: Json)

  /** `type || 'general'`. */
  function TypeOrDefault(t: Json): (r: Json)
    ensures Truthy(r)
    ensures Truthy(t) ==> r == t
    ensures !Truthy(t) ==> r == Str("general")
  {
    if Truthy(t) then t else Str("general")
  }

  /** The store's string columns accept only strings; a truthy number,
      boolean, array or object passed through is rejected and throws. */
  predicate StoreAccepts(title: Json, content: Json, noteType: Json) {
    title.Str? && content.Str? && noteType.Str?
  }

  /** The whole handler. */
  function Handle(verb: string, body: NoteBody, db: Table<Note>, env: StoreEnv): (h: Handled<Note>)
    ensures h.response.status in {200, 201, 400, 405, 500}
    ensures h.response.status != 201 ==> h.db == db
    // GET lists the table newest first and changes nothing.
    ensures verb == "GET" && !env.fails ==>
              && h.response.status == 200 && h.response.body.Rows?
              && Sorting.SortedDesc(h.response.body.rows, NoteCreated)
              && multiset(h.response.body.rows) == multiset(db.rows)
    ensures verb == "GET" && env.fails ==> h.response.status == 500
    ensures h.response.status == 200 ==> verb == "GET" && !env.fails
    // POST: 400 exactly when title or content is falsy.
    ensures verb == "POST" ==> (h.response.status == 400 <==> !Truthy(body.title) || !Truthy(body.content))
    // A created note stores title and content verbatim, the type or its
    // default, the fresh key, and is the one row added.
    ensures h.response.status == 201 ==>
              && verb == "POST" && !env.fails && h.response.body.Row?
              && (var n := h.response.body.row;
                  && Str(n.title) == body.title && Str(n.content) == body.content
                  && Str(n.noteType) == TypeOrDefault(body.noteType)
                  && n.title != [] && n.content != []
                  && n.id == db.nextId && n.createdAt == env.now && n.updatedAt == env.now
                  && h.db == Insert(db, n))
    ensures (verb == "POST" && body.title.Str? && body.content.Str? && body.title.s != [] && body.content.s != []
             && !body.noteType.Other? && !env.fails) ==> h.response.status == 201
    ensures verb == "POST" && Truthy(body.title) && Truthy(body.content) ==>
              (h.response.status == 500 <==> env.fails || !StoreAccepts(body.title, body.content, TypeOrDefault(body.noteType)))
    // Everything else is 405 and advertises GET and POST.
    ensures h.response.status == 405 <==> verb != "GET" && verb != "POST"
    ensures h.response.status == 405 ==> h.response.allow == Allowed && h.response.body.Text?
    ensures h.response.status != 405 ==> h.response.allow == []
  {
    if verb == "GET" then
      if env.fails then Handled(Response(500, [], ErrorJson("Failed to fetch notes")), db)
      else Handled(Response(200, [], Rows(Sorting.SortDesc(db.rows, NoteCreated))), db)
    else if verb == "POST" then
      if !Truthy(body.title) || !Truthy(body.content) then
        Handled(Response(400, [], ErrorJson("Title and content are required")), db)
      else
        var noteType := TypeOrDefault(body.noteType);
        if env.fails || !StoreAccepts(body.title, body.content, noteType) then
          Handled(Response(500, [], ErrorJson("Failed to create note")), db)
        else
          var note := Note(db.nextId, body.title.s, body.content.s, noteType.s, env.now, env.now);
          Handled(Response(201, [], Row(note)), Insert(db, note))
    else
      Handled(Response(405, Allowed, Text("Method " + verb + " Not Allowed")), db)
  }

  /** A whitespace-only title and content are accepted and stored as they are:
      the route, unlike the todo route and the note form, does not trim. */
  lemma {:induction false} WhitespaceTitleAccepted(db: Table<Note>, env: StoreEnv)
    requires !env.fails
    ensures var h := Handle("POST", NoteBody(Json.Str(" "), Json.Str(" "), Undefined), db, env);
            && h.response.status == 201 && h.response.body.row.title == " "
            && h.response.body.row.noteType == "general"
  {
  }

  /** Any truthy string is stored as the type, so the table can hold types
      outside the three client values. */
  lemma {:induction false} UnknownTypeStored(db: Table<Note>, env: StoreEnv, t: string)
    requires !env.fails && t != []
    ensures var h := Handle("POST", NoteBody(Json.Str("a"), Json.Str("b"), Json.Str(t)), db, env);
            && h.response.status == 201 && h.response.body.row.noteType == t
  {
  }

  /** What the form sends, three non-empty strings, is stored verbatim under
      the fresh key unless the store fails. */
  lemma PostOfStrings(title: string, content: string, t: string, db: Table<Note>, env: StoreEnv)
    requires title != [] && content != [] && t != []
    ensures var h := Handle("POST", NoteBody(Json.Str(title), Json.Str(content), Json.Str(t)), db, env);
            && (env.fails ==> h.response.status == 500 && h.db == db)
            && (!env.fails ==>
                  var n := Note(db.nextId, title, content, t, env.now, env.now);
                  h.response.status == 201 && h.response.body == Row(n) && h.db == Insert(db, n))
  {
  }

  lemma HandleKeepsKeys(verb: string, body: NoteBody, db: Table<Note>, env: StoreEnv)
    requires WellKeyed(db, NoteId)
    ensures WellKeyed(Handle(verb, body, db, env).db, NoteId)
  {
    var h := Handle(verb, body, db, env);
    if h.response.status == 201 {
      InsertKeepsKeys(db, h.response.body.row, NoteId);
    }
  }
}
