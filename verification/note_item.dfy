/**
 One card of the notes list: view mode with edit and delete buttons, an
 edit mode with title, type and content fields, a delete-confirmation
 modal and a success notification. Callbacks are fired without awaiting.
 */
module NoteItem {

  import opened Text
  import opened Records

  datatype Item = Item(
    isEditing: bool,
    editTitle: string,
    editContent: string,
    editType: string,
    showDeleteModal: bool,
    showSuccessNotif: bool)

  /** The state a card starts in: view mode, fields seeded from the note,
      nothing open. */
  function Init(note: Note): (r: Item)
    ensures !r.isEditing && !r.showDeleteModal && !r.showSuccessNotif
    ensures r.editTitle == note.title && r.editContent == note.content && r.editType == note.noteType
  {
    Item(false, note.title, note.content, note.noteType, false, false)
  }

  /** The page callbacks a card invokes. */
  datatype ItemCall =
    | Update(id: int, title: string, content: string, noteType: string)
    | Delete(id: int)

  /** The Edit button. */
  function StartEdit(s: Item): (r: Item)
    ensures r.isEditing && r.editTitle == s.editTitle && r.editContent == s.editContent
    ensures r.editType == s.editType
    ensures r.showDeleteModal == s.showDeleteModal && r.showSuccessNotif == s.showSuccessNotif
  {
    s.(isEditing := true)
  }

  /** `handleSave`: with both fields non-blank, sends the raw edits and leaves
      edit mode at once, whatever later becomes of the update. */
  function HandleSave(note: Note, s: Item): (r: Step<Item, ItemCall>)
    ensures r.call.Some? <==> !IsBlank(s.editTitle) && !IsBlank(s.editContent)
    ensures r.call.None? ==> r.state == s
    ensures r.call.Some? ==> r.call.value == Update(note.id, s.editTitle, s.editContent, s.editType)
                             && r.state == s.(isEditing := false)
  {
    if !IsBlank(s.editTitle) && !IsBlank(s.editContent) then
      Step(s.(isEditing := false), Some(Update(note.id, s.editTitle, s.editContent, s.editType)))
    else
      Step(s, None)
  }

  /** `handleCancel`: restores all three fields from the note and leaves edit mode. */
  function HandleCancel(note: Note, s: Item): (r: Item)
    ensures !r.isEditing
    ensures r.editTitle == note.title && r.editContent == note.content && r.editType == note.noteType
    ensures r.showDeleteModal == s.showDeleteModal && r.showSuccessNotif == s.showSuccessNotif
  {
    s.(editTitle := note.title, editContent := note.content, editType := note.noteType, isEditing := false)
  }

  /** `handleDeleteClick`: only opens the modal. */
  function HandleDeleteClick(s: Item): (r: Item)
    ensures r.showDeleteModal && r == s.(showDeleteModal := true)
  {
    s.(showDeleteModal := true)
  }

  /** `handleConfirmDelete`: closes the modal, deletes, shows the notification. */
  function HandleConfirmDelete(note: Note, s: Item): (r: Step<Item, ItemCall>)
    ensures r.call == Some(Delete(note.id))
    ensures !r.state.showDeleteModal && r.state.showSuccessNotif
    ensures r.state.isEditing == s.isEditing && r.state.editTitle == s.editTitle
    ensures r.state.editContent == s.editContent && r.state.editType == s.editType
  {
    Step(s.(showDeleteModal := false, showSuccessNotif := true), Some(Delete(note.id)))
  }

  /** The modal's cancel button: closes it, deletes nothing. */
  function HandleCancelModal(s: Item): (r: Item)
    ensures !r.showDeleteModal && r == s.(showDeleteModal := false)
  {
    s.(showDeleteModal := false)
  }

  /** The notification's close button. */
  function CloseNotification(s: Item): (r: Item)
    ensures !r.showSuccessNotif && r == s.(showSuccessNotif := false)
  {
    s.(showSuccessNotif := false)
  }

  /** The user actions a card responds to. */
  datatype Event = EditClick | SaveClick | CancelClick | DeleteClick | ConfirmClick | ModalCancelClick | NotifClose

  /** Which controls are on screen: the view-mode buttons outside edit mode,
      the edit buttons inside it, the modal's buttons while it is open (the
      modal renders nothing when closed), the close button while the
      notification shows. */
  function Offered(s: Item, e: Event): (r: bool)
    // A closed modal renders nothing, so neither of its buttons can be pressed.
    ensures r && (e == ConfirmClick || e == ModalCancelClick) ==> s.showDeleteModal
    // The view-mode buttons and the edit-mode buttons are never on screen together.
    ensures r && (e == EditClick || e == DeleteClick) ==> !s.isEditing
    ensures r && (e == SaveClick || e == CancelClick) ==> s.isEditing
    // The notification's close button shows only with the notification.
    ensures r && e == NotifClose ==> s.showSuccessNotif
  {
    match e
    case EditClick => !s.isEditing
    case DeleteClick => !s.isEditing
    case SaveClick => s.isEditing
    case CancelClick => s.isEditing
    case ConfirmClick => s.showDeleteModal
    case ModalCancelClick => s.showDeleteModal
    case NotifClose => s.showSuccessNotif
  }

  /** One user action; an action whose control is not on screen does nothing. */
  function Dispatch(note: Note, s: Item, e: Event): (r: Step<Item, ItemCall>)
    ensures r.call.Some? && r.call.value.Delete? ==> e == ConfirmClick && s.showDeleteModal
    ensures r.call.Some? ==> Offered(s, e)
    ensures !Offered(s, e) ==> r == Step(s, None)
  {
    if !Offered(s, e) then Step(s, None)
    else
      match e
      case EditClick => Step(StartEdit(s), None)
      case SaveClick => HandleSave(note, s)
      case CancelClick => Step(HandleCancel(note, s), None)
      case DeleteClick => Step(HandleDeleteClick(s), None)
      case ConfirmClick => HandleConfirmDelete(note, s)
      case ModalCancelClick => Step(HandleCancelModal(s), None)
      case NotifClose => Step(CloseNotification(s), None)
  }

  /** The final state of a run of actions and the callbacks it fired. */
  datatype Trace = Trace(last: Item, calls: seq<ItemCall>)

  function Replay(note: Note, s: Item, events: seq<Event>): (r: Trace)
    decreases |events|
  {
    if events == [] then Trace(s, [])
    else
      var step := Dispatch(note, s, events[0]);
      var rest := Replay(note, step.state, events[1..]);
      Trace(rest.last, (if step.call.Some? then [step.call.value] else []) + rest.calls)
  }

  function DeleteCount(calls: seq<ItemCall>): nat {
    if calls == [] then 0 else (if calls[0].Delete? then 1 else 0) + DeleteCount(calls[1..])
  }

  function DeleteClicks(events: seq<Event>): nat {
    if events == [] then 0 else (if events[0] == DeleteClick then 1 else 0) + DeleteClicks(events[1..])
  }

  function Open(b: bool): nat { if b then 1 else 0 }

  lemma {:induction false} DeleteCountAppend(a: seq<ItemCall>, b: seq<ItemCall>)
    ensures DeleteCount(a + b) == DeleteCount(a) + DeleteCount(b)
    decreases |a|
  {
    if a == [] {
      assert a + b == b;
    } else {
      assert (a + b)[1..] == a[1..] + b;
      DeleteCountAppend(a[1..], b);
    }
  }

  /** Deletion is gated by the modal: over any run of actions, each delete
      fired used up one opening of the modal by the delete button. */
  lemma {:induction false} DeletesNeedClicks(note: Note, s: Item, events: seq<Event>)
    ensures var t := Replay(note, s, events);
            DeleteCount(t.calls) + Open(t.last.showDeleteModal) <= DeleteClicks(events) + Open(s.showDeleteModal)
    decreases |events|
  {
    if events != [] {
      var step := Dispatch(note, s, events[0]);
      DeletesNeedClicks(note, step.state, events[1..]);
      var rest := Replay(note, step.state, events[1..]);
      DeleteCountAppend(if step.call.Some? then [step.call.value] else [], rest.calls);
    }
  }

  /** From a fresh card, no run of actions deletes more often than the delete
      button was pressed; in particular, no run without a press deletes. */
  lemma DeleteOnlyAfterClick(note: Note, events: seq<Event>)
    ensures DeleteCount(Replay(note, Init(note), events).calls) <= DeleteClicks(events)
  {
    DeletesNeedClicks(note, Init(note), events);
  }

  /** `getTypeLabel`. */
  function TypeLabel(t: string): (r: string)
    ensures r == "Penting" <==> t == "important"
    ensures r == "Harian" <==> t == "daily"
    ensures r == "Umum" <==> t != "important" && t != "daily"
  {
    if t == "important" then "Penting"
    else if t == "daily" then "Harian"
    else "Umum"
  }

  /** `getTypeColor`. */
  function TypeColor(t: string): (r: string)
    ensures r == "bg-red-100 text-red-800 border-red-300" <==> t == "important"
    ensures r == "bg-green-100 text-green-800 border-green-300" <==> t == "daily"
    ensures r == "bg-gray-100 text-gray-800 border-gray-300" <==> t != "important" && t != "daily"
  {
    if t == "important" then "bg-red-100 text-red-800 border-red-300"
    else if t == "daily" then "bg-green-100 text-green-800 border-green-300"
    else "bg-gray-100 text-gray-800 border-gray-300"
  }

  /** Label and colour pick the same one of three styles, and the three
      client types get three different ones. */
  lemma LabelAndColorAgree(t: string, u: string)
    ensures TypeLabel(t) == TypeLabel(u) <==> TypeColor(t) == TypeColor(u)
    ensures TypeLabel(TypeName(Important)) != TypeLabel(TypeName(Daily))
    ensures TypeLabel(TypeName(Daily)) != TypeLabel(TypeName(General))
    ensures TypeLabel(TypeName(Important)) != TypeLabel(TypeName(General))
  {
  }
}
