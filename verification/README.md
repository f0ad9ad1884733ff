# Todo list and notes: a Dafny model

This project models the decision logic of a small Next.js application that
keeps two kinds of record, todos and notes. Four layers are modelled:

- the two collection routes, `/api/todos` and `/api/notes`. Each does method
  dispatch, body validation and normalisation, and maps outcomes to status
  codes;
- the two pages (`index.tsx`, `notes.tsx`), which fetch the list and
  reconcile their cached copy after each mutation. They also derive the
  filtered views and the counters;
- the two add forms and the two list items, as small state machines;
- the wiring between them (`Flows`): a form's callback is the page handler,
  and that handler's `fetch` reaches the route.

Everything is a pure function over immutable datatypes. The store is a
`Table` of rows. Its auto-incrementing `nextId` is the fresh-id oracle.
A `StoreEnv` supplies the clock and a flag that makes the store call throw.
A `fetch` result is a `Reply`: OK with a payload, non-OK, or thrown. An
awaited callback's promise is an `Outcome` input (resolved or rejected),
and `confirm()` is a boolean input. An async UI handler returns a `Run`:
the state while its callback is outstanding, the callback it invoked, and
the state once it finishes.

JavaScript's `String.prototype.trim` is `Text.Trim`. It strips the
ECMA-262 WhiteSpace and LineTerminator characters from both ends.
`Text.TrimUnique` characterises it independently of how it is computed.

Where the code and a natural reading of the design differ, the model
follows the code:

- A todo edit leaves edit mode whenever `onUpdate` resolves.
  `handleUpdateTodo` resolves on every HTTP status and rejects only when
  `fetch` or `response.json()` throws. So a 404 or 500 also ends the edit, and the list keeps
  the old record (`Flows.SaveTodo`).
- The add-todo form's catch branch keeps the typed fields, but it is
  reached only when `fetch` or `response.json()` throws. With the store down, the route answers
  500, the page adds nothing and the form still clears
  (`Flows.FailedAddStillClearsForm`).
- The note route checks only that title and content are truthy. A
  whitespace-only title is stored, and so is any truthy `type` string. A
  note with an unknown type shows the "Umum" label, yet the `general`
  filter and count leave it out. The three per-type counts add up to the
  total only when every stored type is one of the three client values
  (`NotesPage.TypeCountsCover`).

## Model

| member | source | states |
|---|---|---|
| `Text.Trim` | src/pages/api/todos/index.ts:21-28 | `s.trim()` has no whitespace at either end, is no longer than `s`, and is empty exactly when `s` is all whitespace |
| `Text.TrimUnique` | src/pages/api/todos/index.ts:27 | for any split of a string into a whitespace prefix, a middle with no whitespace at either end, and a whitespace suffix, `trim` returns that middle |
| `Text.TrimIdempotent` | src/pages/api/todos/index.ts:27 | trimming an already trimmed title changes nothing |
| `Seqs.Filter` | src/pages/index.tsx:86-90 | `filter` keeps exactly the elements satisfying the predicate, in their original relative order (a subsequence) |
| `Seqs.FilterPartition` | src/pages/index.tsx:92-93 | filters by two complementary predicates have lengths adding up to the list length |
| `Sorting.SortDesc` | src/pages/api/todos/index.ts:11-15 | `orderBy: { createdAt: 'desc' }` returns a permutation of the rows with `createdAt` non-increasing |
| `Store.Insert` | src/pages/api/todos/index.ts:25-30 | `create` adds exactly one row, the given one, after the existing rows, and advances the key counter |
| `Store.InsertKeepsKeys` | src/pages/api/todos/index.ts:25-30 | creating a row with the table's next auto-increment key keeps keys distinct and below the counter |
| `TodosApi.TitleMissing` | src/pages/api/todos/index.ts:21 | a string title is missing exactly when it trims to the empty string; any other value exactly when it is falsy |
| `TodosApi.StoredDescription` | src/pages/api/todos/index.ts:28 | `description?.trim() \|\| null` is `null` for an absent or blank description, the trimmed text otherwise, and throws for a non-string value |
| `TodosApi.Handle` | src/pages/api/todos/index.ts:4-41 | GET: 200 with the rows newest first, table unchanged. POST: 400 exactly for a missing, falsy or blank title; 201 creates one row with the trimmed non-empty title, the normalised description, `completed` false and the fresh id. Store failure or a non-string field that throws in `trim`: 500. Any other method: 405 with `Allow: GET, POST`. Only a 201 changes the table |
| `TodosApi.HandleKeepsKeys` | src/pages/api/todos/index.ts:25-32 | no sequence of requests to the route ever gives two todos the same id |
| `TodosApi.HandleKeepsValid` | src/pages/api/todos/index.ts:21-30 | every stored todo keeps a non-empty trimmed title and a description that is `null` or non-empty and trimmed |
| `NotesApi.TypeOrDefault` | src/pages/api/notes/index.ts:30 | `type \|\| 'general'` keeps a truthy type unchanged and replaces a falsy one with `general` |
| `NotesApi.Handle` | src/pages/api/notes/index.ts:4-43 | GET: 200 with the rows newest first, or 500. POST: 400 exactly when title or content is falsy; otherwise 201 stores title and content verbatim and the type or its default, or 500 when the store fails or rejects a non-string field. Any other method: 405 with `Allow: GET, POST` and a text body. Only a 201 changes the table |
| `NotesApi.WhitespaceTitleAccepted` | src/pages/api/notes/index.ts:20-30 | a POST whose title and content are a single space is accepted and stored untrimmed, with type `general` |
| `NotesApi.UnknownTypeStored` | src/pages/api/notes/index.ts:30 | any non-empty type string is stored as sent, without an enum check |
| `NotesApi.PostOfStrings` | src/pages/api/notes/index.ts:26-38 | a POST of three non-empty strings gives 201 with exactly those strings stored under the fresh key and timestamp, or 500 with the table unchanged when the store fails |
| `NotesApi.HandleKeepsKeys` | src/pages/api/notes/index.ts:26-34 | no sequence of requests to the route ever gives two notes the same id |
| `Reconcile.Prepend` | src/pages/index.tsx:42 | `[x, ...s]` is one longer, starts with `x`, and its tail is `s` |
| `Reconcile.ReplaceById` | src/pages/index.tsx:56 | the `map` keeps the length, puts `x` at every position whose id matches, and leaves every other position unchanged |
| `Reconcile.RemoveById` | src/pages/index.tsx:67 | the `filter` leaves no record with the id, keeps every other record in its relative order, and drops exactly as many records as carry the id, so duplicates of a kept record all survive |
| `Reconcile.RemoveUndoesPrepend` | src/pages/index.tsx:40-68 | deleting the id of a record just prepended with a fresh id gives back the list before the add |
| `Reconcile.RemoveIdempotent` | src/pages/index.tsx:66-68 | deleting the same id twice is the same as deleting it once |
| `Reconcile.RemoveKeys` | src/pages/index.tsx:67 | after a delete the ids present are the previous ids minus the deleted one |
| `Reconcile.ReplaceKeepsKeys` | src/pages/index.tsx:54-57 | replacing with the record the server returned for that id keeps the set of ids |
| `Reconcile.ReplaceIdempotent` | src/pages/index.tsx:79-82 | applying the same update twice gives the same list as applying it once, whatever record the update carries |
| `Reconcile.PrependKeepsUnique` | src/pages/index.tsx:42 | prepending a record with a fresh id keeps ids unique in the list |
| `Reconcile.ReplaceKeepsUnique` | src/pages/index.tsx:56 | replacing by id with a record carrying that id keeps ids unique in the list |
| `TodoPage.FetchTodos` | src/pages/index.tsx:14-26 | an OK fetch replaces the list with the response, a non-OK or thrown fetch keeps it, and loading ends on every path |
| `TodoPage.HandleAdd` | src/pages/index.tsx:33-44 | an OK add prepends the new todo; a non-OK or thrown one leaves the page unchanged; only a thrown `fetch` or `response.json()` rejects |
| `TodoPage.HandleReplace` | src/pages/index.tsx:47-83 | an OK toggle or update replaces exactly the todos with that id and keeps the length; a non-OK or thrown one leaves the page unchanged; only a thrown `fetch` or `response.json()` rejects |
| `TodoPage.HandleDelete` | src/pages/index.tsx:61-69 | an OK delete keeps exactly the todos with another id, in order, shrinking the list by the number of todos with that id; a non-OK or thrown one leaves the page unchanged |
| `TodoPage.SetFilter` | src/pages/index.tsx:154-174 | a filter button selects its filter and leaves the list and the loading flag alone |
| `TodoPage.ActiveCount` | src/pages/index.tsx:92 | the Active stat is at most the total, and positive exactly when some todo is not completed |
| `TodoPage.CompletedCount` | src/pages/index.tsx:93 | the Completed stat is at most the total, and positive exactly when some todo is completed |
| `TodoPage.Visible` | src/pages/index.tsx:86-90 | `active` shows exactly the uncompleted todos, `completed` exactly the completed ones, `all` the whole list; each view is a subsequence of the list |
| `TodoPage.CountsAddUp` | src/pages/index.tsx:92-93 | the Active and Completed stats sum to the Total stat |
| `TodoPage.CountsMatchViews` | src/pages/index.tsx:86-93 | each stat equals the length of the matching filtered view |
| `TodoPage.DeleteUndoesAdd` | src/pages/index.tsx:40-68 | an OK add followed by an OK delete of that todo's fresh id restores the page |
| `NotesPage.FetchNotes` | src/pages/notes.tsx:14-26 | an OK fetch replaces the list with the response, anything else keeps it, and loading ends on every path |
| `NotesPage.HandleAdd` | src/pages/notes.tsx:33-44 | an OK add prepends the new note; a non-OK or thrown one leaves the page unchanged |
| `NotesPage.HandleUpdate` | src/pages/notes.tsx:47-58 | an OK update replaces exactly the notes with that id and keeps the length; otherwise the page is unchanged |
| `NotesPage.HandleDelete` | src/pages/notes.tsx:61-69 | an OK delete removes every note with that id and keeps the order of the rest, shrinking the list by the number of notes with that id; otherwise the page is unchanged |
| `NotesPage.SetFilter` | src/pages/notes.tsx:144-174 | a filter button selects its filter and leaves the list and the loading flag alone |
| `NotesPage.CountOf` | src/pages/notes.tsx:77-79 | a type's stat is at most the total, and positive exactly when some note has that type |
| `NotesPage.Visible` | src/pages/notes.tsx:72-79 | `all` is the identity; a type filter keeps exactly the notes whose stored type equals it, and its length is that type's count |
| `NotesPage.CountStep` | src/pages/notes.tsx:77-79 | the first note counts towards its own type's stat and no other, and the rest of the list supplies the remainder |
| `NotesPage.TypeCountsCover` | src/pages/notes.tsx:77-79 | the three type counts never exceed the total, and equal it exactly when every note's type is `important`, `daily` or `general` |
| `NotesPage.DeleteUndoesAdd` | src/pages/notes.tsx:40-68 | an OK add followed by an OK delete of that note's fresh id restores the page |
| `AddTodoForm.Submit` | src/components/AddTodoForm.tsx:12-27 | a blank title does nothing. Otherwise `onAdd` gets the raw title and description and the form is loading meanwhile. Afterwards it is never loading; it is cleared only if `onAdd` resolved and keeps its fields if `onAdd` rejected |
| `AddTodoForm.SubmitEnabled` | src/components/AddTodoForm.tsx:54 | the submit button is enabled exactly when the form is idle and the trimmed title is not empty |
| `AddTodoForm.EnabledIffSubmits` | src/components/AddTodoForm.tsx:54 | the submit button is enabled exactly when the form is idle and submitting would call `onAdd` |
| `AddTodoForm.ClearedFormDisabled` | src/components/AddTodoForm.tsx:19-21 | after a resolved add the cleared form's button is disabled |
| `AddNoteForm.Submit` | src/components/AddNoteForm.tsx:12-21 | `onAdd` is called, with the raw title, content and current type, exactly when both trimmed fields are non-empty; then the form resets to empty fields and type `general`, whatever the add's outcome; otherwise nothing changes |
| `AddNoteForm.ResubmitIsNoop` | src/components/AddNoteForm.tsx:8-19 | the reset form is the initial form, and submitting it again calls nothing |
| `AddNoteForm.WhitespaceTitleRefused` | src/components/AddNoteForm.tsx:15 | a title of one space is refused, whatever the content |
| `TodoItem.DescriptionText` | src/components/TodoItem.tsx:14 | `todo.description \|\| ''` is the description when there is one and `''` when it is `null` |
| `TodoItem.Init` | src/components/TodoItem.tsx:12-15 | a row starts in view mode, idle, with the edit fields holding the title and the description or `''` |
| `TodoItem.StartEdit` | src/components/TodoItem.tsx:141 | the Edit button enters edit mode keeping the edit fields and the loading flag |
| `TodoItem.HandleToggle` | src/components/TodoItem.tsx:17-24 | `onToggle` receives the id and the negation of `completed`; while it runs only the loading flag changes, and afterwards the row is as before, not loading |
| `TodoItem.HandleDelete` | src/components/TodoItem.tsx:26-35 | without confirmation nothing happens; with it `onDelete(id)` is called while only the loading flag is set, and afterwards the row is as before, not loading |
| `TodoItem.HandleSave` | src/components/TodoItem.tsx:37-49 | a blank edit title does nothing. Otherwise `onUpdate` gets the raw edits, loading ends afterwards, and edit mode ends exactly when `onUpdate` resolved |
| `TodoItem.HandleCancel` | src/components/TodoItem.tsx:51-55 | cancel restores the title and the description or `''`, and leaves edit mode |
| `TodoItem.CancelRestoresInit` | src/components/TodoItem.tsx:51-55 | cancelling an idle row returns it to exactly its initial state |
| `TodoItem.LoadingAlwaysClears` | src/components/TodoItem.tsx:17-49 | toggle, delete and save all end with the row not loading, on every path |
| `NoteItem.Init` | src/components/NoteItem.tsx:13-18 | a card starts in view mode with the edit fields holding the note's title, content and type, and no modal or notification open |
| `NoteItem.StartEdit` | src/components/NoteItem.tsx:140 | the Edit button enters edit mode keeping the three edit fields, the modal and the notification as they were |
| `NoteItem.HandleSave` | src/components/NoteItem.tsx:20-25 | `onUpdate` is called with the raw edits, and edit mode ends immediately, exactly when both trimmed fields are non-empty; otherwise nothing changes |
| `NoteItem.HandleCancel` | src/components/NoteItem.tsx:27-32 | cancel restores title, content and type from the note and leaves edit mode |
| `NoteItem.HandleDeleteClick` | src/components/NoteItem.tsx:34-36 | the delete button only opens the modal |
| `NoteItem.HandleConfirmDelete` | src/components/NoteItem.tsx:38-42 | confirming closes the modal, calls `onDelete(note.id)` and opens the success notification, keeping the edit mode and all three edit fields |
| `NoteItem.HandleCancelModal` | src/components/NoteItem.tsx:164 | the modal's cancel closes it and changes nothing else |
| `NoteItem.CloseNotification` | src/components/NoteItem.tsx:172 | closing the notification hides it and changes nothing else |
| `NoteItem.Offered` | src/components/NoteItem.tsx:79-172 | the modal's buttons exist only while the modal is open, the view-mode and edit-mode buttons only in their mode, and the close button only with the notification |
| `NoteItem.Dispatch` | src/components/NoteItem.tsx:77-172 | a user action fires a callback only through a control on screen, and `onDelete` only through the confirm button of an open modal; an action whose control is not on screen changes nothing |
| `NoteItem.DeletesNeedClicks` | src/components/NoteItem.tsx:34-42 | over any run of actions, deletions plus an open modal never outnumber delete-button presses plus a modal open at the start |
| `NoteItem.DeleteOnlyAfterClick` | src/components/NoteItem.tsx:146-164 | from a fresh card, no run of actions calls `onDelete` more often than the delete button was pressed |
| `NoteItem.TypeLabel` | src/components/NoteItem.tsx:55-64 | `important` maps to "Penting", `daily` to "Harian", every other string to "Umum" |
| `NoteItem.TypeColor` | src/components/NoteItem.tsx:44-53 | `important` maps to the red classes, `daily` to the green ones, every other string to the gray default |
| `NoteItem.LabelAndColorAgree` | src/components/NoteItem.tsx:44-64 | two types share a label exactly when they share a colour, and the three client types get three different labels |
| `Flows.RowReply` | src/pages/index.tsx:40-41 | the page sees OK exactly for a 2xx reply carrying a record, and then reads that record; a 2xx reply of another shape counts as not OK (the routes never send one to a POST) |
| `Flows.ListReply` | src/pages/index.tsx:17-19 | the same for a list response: OK exactly for a 2xx reply carrying rows |
| `Flows.LoadTodosNewestFirst` | src/pages/index.tsx:14-30 | the initial load shows every stored todo, newest first, keeps the `all` filter, and ends loading even when the route answers 500 |
| `Flows.LoadNotesNewestFirst` | src/pages/notes.tsx:14-30 | the initial load shows every stored note, newest first, keeps the `all` filter, and ends loading even when the route answers 500 |
| `Flows.TodoGuardsAgree` | src/components/AddTodoForm.tsx:15 | the form accepts exactly the titles the todo route accepts |
| `Flows.SubmitTodo` | src/components/AddTodoForm.tsx:17-26 | a non-blank submit always clears the form; with the store up the page gains one todo at the head, carrying the fresh key, the trimmed title, the normalised description, `completed` false and the request time, the same row the table gained, and the page keeps its loading flag and filter; with the store down neither page nor table changes |
| `Flows.FailedAddStillClearsForm` | src/pages/index.tsx:40-43 | with the store down, a submit clears the typed title although no todo was created |
| `Flows.SaveTodo` | src/components/TodoItem.tsx:37-48 | saving through `handleUpdateTodo` leaves edit mode unless `fetch` or `response.json()` threw; an OK reply replaces exactly the todos with the saved id and keeps every other one; an HTTP error status leaves the list unchanged yet ends the edit; on every non-blank save the row ends not loading with its typed fields kept; the page keeps its loading flag and filter on every path |
| `Flows.SubmitNote` | src/components/AddNoteForm.tsx:15-19 | a submit with a blank title or content changes neither form, page nor table |
| `Flows.SubmitNoteResetsForm` | src/components/AddNoteForm.tsx:16-19 | an accepted submit resets the form whatever the server answers |
| `Flows.SubmitNoteCreates` | src/pages/notes.tsx:33-44 | with the store up, an accepted submit puts the same note, the typed fields verbatim with the selected type's wire name and the fresh key, at the head of the page and the end of the table, and the page keeps its loading flag and filter |
| `Flows.SubmitNoteStoreDown` | src/pages/notes.tsx:33-44 | with the store down, a submit changes neither page nor table |
| `Flows.FormNotesKeepCountsExact` | src/pages/notes.tsx:77-79 | if every listed note has a client type, the type counts still add up to the total after a form submit |
| `Flows.NoteFormStricterThanRoute` | src/pages/api/notes/index.ts:22-24 | every note the form sends passes the route's presence check, so the route never answers 400 to the form |

## Left out

- The item routes `/api/todos/[id]` and `/api/notes/[id]` (PUT and DELETE, id parsing, 404) are not part of this model. The pages' toggle, update and delete handlers take the route's reply as an input.
- `TodoPage.HandleReplace` models both `handleToggleTodo` and `handleUpdateTodo`. They differ only in the request body they send, and that body is interpreted by the item route, which is left out.
- Prisma, `fetch`, JSON parsing and the HTTP transport are not modelled. The store is a `Table` plus a failure flag, and a response is a `Reply`.
- Request bodies are modelled field by field. A body that is missing or is not an object is not modelled.
- On the note route, a truthy non-string title, content or type is assumed to be rejected by the store's string columns, giving 500. The schema is not part of this model.
- `Sorting.SortDesc`: the store does not define the order among rows with equal `createdAt`, and the model fixes one. Only sortedness and permutation are stated.
- Timestamps are abstract integers rather than date strings. The todo `updatedAt` column is not used by the modelled code and is left out.
- Date formatting with `toLocaleDateString('id-ID', ...)` depends on locale and time zone.
- Rendering, Tailwind class strings other than `getTypeColor`, `Head` and `Link` are presentation only. So are `ConfirmModal`'s and `SuccessNotification`'s DOM side effects.
- The `onChange` setters of the form and item fields are plain assignments and are not modelled as members. `e.preventDefault()` and `console.error` are side effects only.
- The `disabled={isLoading}` gating of the todo row's buttons is not modelled. Each todo-row handler is one atomic step.
- Async interleaving is not modelled: stale captured `todos`/`notes` arrays, and a component unmounting during a request. Each handler runs as one atomic step.
