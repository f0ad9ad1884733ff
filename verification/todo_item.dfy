/**
 One row of the todo list: view mode with toggle, edit and delete buttons,
 and an edit mode with title and description fields. Every callback is
 awaited behind a loading flag.
 */
module TodoItem {

  import opened Text
  import opened Records

  datatype Item = Item(isEditing: bool, editTitle: string, editDescription: string, isLoading: bool)

  /** `todo.description || ''`. */
  function DescriptionText(d: Option<string>): (r: string)
    ensures d.Some? ==> r == d.value
    ensures d.None? ==> r == ""
  {
    match d
    case Some(s) => s
    case None => ""
  }

  /** The state a row starts in: view mode, fields seeded from the todo. */
  function Init(todo: Todo): (r: Item)
    ensures !r.isEditing && !r.isLoading
    ensures r.editTitle == todo.title && r.editDescription == DescriptionText(todo.description)
  {
    Item(false, todo.title, DescriptionText(todo.description), false)
  }

  /** The page callbacks a row invokes. */
  datatype ItemCall =
    | Toggle(id: int, completed: bool)
    | Delete(id: int)
    | Update(id: int, title: string, description: string)

  /** The Edit button. */
  function StartEdit(s: Item): (r: Item)
    ensures r.isEditing && r.editTitle == s.editTitle && r.editDescription == s.editDescription
    ensures r.isLoading == s.isLoading
  {
    s.(isEditing := true)
  }

  /** `handleToggle`: asks for the opposite completion state. The promise's
      outcome changes nothing here; a rejection propagates out of the row. */
  function HandleToggle(todo: Todo, s: Item): (r: Run<Item, ItemCall>)
    ensures r.call == Some(Toggle(todo.id, !todo.completed))
    ensures r.pending == s.(isLoading := true) && !r.settled.isLoading
    ensures r.settled == s.(isLoading := false)
  {
    Run(s.(isLoading := true), Some(Toggle(todo.id, !todo.completed)), s.(isLoading := false))
  }

  /** `handleDelete`, with `confirmed` the answer of `confirm(...)`. */
  function HandleDelete(todo: Todo, s: Item, confirmed: bool): (r: Run<Item, ItemCall>)
    ensures !confirmed ==> r.call.None? && r.pending == s && r.settled == s
    ensures confirmed ==> r.call == Some(Delete(todo.id)) && r.pending == s.(isLoading := true)
                          && r.settled == s.(isLoading := false)
  {
    if confirmed then
      Run(s.(isLoading := true), Some(Delete(todo.id)), s.(isLoading := false))
    else
      Run(s, None, s)
  }

  /** `handleSave`, with `outcome` saying how `onUpdate` settled. */
  function HandleSave(todo: Todo, s: Item, outcome: Outcome): (r: Run<Item, ItemCall>)
    ensures IsBlank(s.editTitle) ==> r.call.None? && r.pending == s && r.settled == s
    ensures !IsBlank(s.editTitle) ==>
              && r.call == Some(Update(todo.id, s.editTitle, s.editDescription))
              && r.pending == s.(isLoading := true)
              && !r.settled.isLoading
              && r.settled.editTitle == s.editTitle && r.settled.editDescription == s.editDescription
              && (r.settled.isEditing <==> outcome == Rejected && s.isEditing)
  {
    if IsBlank(s.editTitle) then Run(s, None, s)
    else
      var pending := s.(isLoading := true);
      var settled := match outcome
                     case Resolved => pending.(isEditing := false, isLoading := false)
                     case Rejected => pending.(isLoading := false);
      Run(pending, Some(Update(todo.id, s.editTitle, s.editDescription)), settled)
  }

  /** `handleCancel`: drops the edits and leaves edit mode. */
  function HandleCancel(todo: Todo, s: Item): (r: Item)
    ensures !r.isEditing && r.isLoading == s.isLoading
    ensures r.editTitle == todo.title && r.editDescription == DescriptionText(todo.description)
  {
    s.(editTitle := todo.title, editDescription := DescriptionText(todo.description), isEditing := false)
  }

  /** Cancel returns an idle row to exactly its initial state, whatever was typed. */
  lemma CancelRestoresInit(todo: Todo, s: Item)
    requires !s.isLoading
    ensures HandleCancel(todo, s) == Init(todo)
  {
  }

  /** No handler leaves the row loading once its callback has settled. */
  lemma LoadingAlwaysClears(todo: Todo, s: Item, confirmed: bool, outcome: Outcome)
    requires !s.isLoading
    ensures !HandleToggle(todo, s).settled.isLoading
    ensures !HandleDelete(todo, s, confirmed).settled.isLoading
    ensures !HandleSave(todo, s, outcome).settled.isLoading
  {
  }
}
